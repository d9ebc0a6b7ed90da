/** The PNG header of section 11.2.2 of the PNG specification, printed, against the two readers of ImageHeader. */
module PngHeader {
  import opened Results
  import opened ImageHeader

  function Print32(n: nat): (r: Bytes)
    ensures |r| == 4
  { [n / 0x100_0000, n / 0x1_0000 % 256, n / 0x100 % 256, n % 256] }

  /** The signature, a 13-byte IHDR chunk with width and height, and whatever follows. */
  function PrintPng(width: nat, height: nat, rest: Bytes): Bytes {
    [0x89, 0x50, 0x4e, 0x47, 0x0d, 0x0a, 0x1a, 0x0a] + [0, 0, 0, 13, 0x49, 0x48, 0x44, 0x52] + Print32(width) + Print32(height) + rest
  }

  /** The bytes are such a file, with the rest of the chunk and its checksum. */
  ghost predicate IsPrinted(b: Bytes, width: nat, height: nat) {
    width < 0x1_0000_0000 && height < 0x1_0000_0000 && exists rest :: |rest| >= 9 && b == PrintPng(width, height, rest)
  }

  lemma Digits(n: nat)
    requires n < 0x1_0000_0000
    ensures var p := Print32(n);
      n == p[0] * 0x100_0000 + p[1] * 0x1_0000 + p[2] * 0x100 + p[3] && forall k :: 0 <= k < 4 ==> 0 <= p[k] < 256
  {
    assert n / 0x1_0000 == n / 0x100_0000 * 256 + n / 0x1_0000 % 256;
    assert n % 0x1_0000 == n / 0x100 % 256 * 256 + n % 256;
  }

  lemma SameDigits(a: int, b: int, c: int, d: int, a': int, b': int, c': int, d': int)
    requires 0 <= a < 256 && 0 <= b < 256 && 0 <= c < 256 && 0 <= d < 256
    requires 0 <= a' < 256 && 0 <= b' < 256 && 0 <= c' < 256 && 0 <= d' < 256
    requires a * 0x100_0000 + b * 0x1_0000 + c * 0x100 + d == a' * 0x100_0000 + b' * 0x1_0000 + c' * 0x100 + d'
    ensures a == a' && b == b' && c == c' && d == d'
  {
  }

  lemma Reads32(b: Bytes, at: nat, n: nat)
    requires at + 4 <= |b| && IsBytes(b) && n < 0x1_0000_0000
    ensures U32(b, at) == n <==> b[at] == Print32(n)[0] && b[at + 1] == Print32(n)[1] && b[at + 2] == Print32(n)[2] && b[at + 3] == Print32(n)[3]
  {
    Digits(n);
    var p := Print32(n);
    assert U32(b, at) == b[at] * 0x100_0000 + b[at + 1] * 0x1_0000 + b[at + 2] * 0x100 + b[at + 3];
    if U32(b, at) == n { SameDigits(b[at], b[at + 1], b[at + 2], b[at + 3], p[0], p[1], p[2], p[3]); }
  }

  lemma InRange(b: Bytes, at: nat)
    requires at + 4 <= |b| && IsBytes(b)
    ensures 0 <= U32(b, at) < 0x1_0000_0000
  {
  }

  lemma PrintedParts(b: Bytes, width: nat, height: nat)
    requires |b| >= 33
    ensures (exists rest :: |rest| >= 9 && b == PrintPng(width, height, rest)) <==>
              && b[..8] == [0x89, 0x50, 0x4e, 0x47, 0x0d, 0x0a, 0x1a, 0x0a] && b[8..16] == [0, 0, 0, 13, 0x49, 0x48, 0x44, 0x52]
              && b[16..20] == Print32(width) && b[20..24] == Print32(height)
  {
    if b[..8] == [0x89, 0x50, 0x4e, 0x47, 0x0d, 0x0a, 0x1a, 0x0a] && b[8..16] == [0, 0, 0, 13, 0x49, 0x48, 0x44, 0x52]
       && b[16..20] == Print32(width) && b[20..24] == Print32(height) {
      assert b == b[..8] + b[8..16] + b[16..20] + b[20..24] + b[24..];
      assert b == PrintPng(width, height, b[24..]);
    }
    if rest :| |rest| >= 9 && b == PrintPng(width, height, rest) {
      PiecesOf(width, height, rest);
    }
  }

  lemma PiecesOf(width: nat, height: nat, rest: Bytes)
    ensures var b := PrintPng(width, height, rest);
      && |b| == 24 + |rest| && b[..8] == [0x89, 0x50, 0x4e, 0x47, 0x0d, 0x0a, 0x1a, 0x0a]
      && b[8..16] == [0, 0, 0, 13, 0x49, 0x48, 0x44, 0x52] && b[16..20] == Print32(width) && b[20..24] == Print32(height)
  {
  }

  lemma HeaderReads(b: Bytes)
    requires |b| >= 33 && IsBytes(b)
    ensures HasHeaderChunk(b) <==> b[8..16] == [0, 0, 0, 13, 0x49, 0x48, 0x44, 0x52]
  {
    Reads32(b, 8, 13);
    Reads32(b, 12, 0x49484452);
    assert Print32(13) == [0, 0, 0, 13] && Print32(0x49484452) == [0x49, 0x48, 0x44, 0x52];
  }

  lemma SizeReads(b: Bytes, at: nat, n: nat)
    requires at + 4 <= |b| && IsBytes(b) && n < 0x1_0000_0000
    ensures U32(b, at) == n <==> b[at..at + 4] == Print32(n)
  {
    Reads32(b, at, n);
  }

  /** A file is read as a PNG of these dimensions exactly when it is a printed one. */
  lemma PrintedExactly(b: Bytes, width: nat, height: nat)
    requires IsBytes(b)
    ensures IsPrinted(b, width, height) <==> IsPng(b) && HasHeaderChunk(b) && U32(b, 16) == width && U32(b, 20) == height
  {
    if |b| >= 33 {
      PrintedParts(b, width, height);
      HeaderReads(b);
      InRange(b, 16);
      InRange(b, 20);
      if width < 0x1_0000_0000 && height < 0x1_0000_0000 {
        SizeReads(b, 16, width);
        SizeReads(b, 20, height);
      }
    }
  }

  /** The style and artwork reader accepts exactly the printed PNGs of at most 12 MiB, 8192 pixels a side and 32
      megapixels, and gives their width and height. */
  lemma PngExactly(b: Bytes, width: nat, height: nat)
    requires IsBytes(b)
    ensures PngDimensions(b) == Some((width, height)) <==>
              && IsPrinted(b, width, height) && |b| <= 12 * 0x10_0000
              && 1 <= width <= 8192 && 1 <= height <= 8192 && width * height <= 32 * 0x10_0000
  {
    PrintedExactly(b, width, height);
  }

  /** The cover reader finds a PNG of exactly the printed dimensions, or refuses them. */
  lemma CoverPngExactly(b: Bytes, width: nat, height: nat)
    requires IsBytes(b) && |b| <= 5 * 0x10_0000 && IsPrinted(b, width, height)
    ensures Inspect(b) == if 1 <= width <= 8192 && 1 <= height <= 8192 && width * height <= 32 * 0x10_0000
                          then Found(width, height, Png) else DimensionsInvalid
  {
    PrintedExactly(b, width, height);
  }

  /** What the cover reader calls a PNG is a printed one. */
  lemma FoundPngIsPrinted(b: Bytes, width: int, height: int)
    requires IsBytes(b) && IsPng(b) && Inspect(b) == Found(width, height, Png)
    ensures width > 0 && height > 0 && IsPrinted(b, width, height)
  {
    PrintedExactly(b, width, height);
  }

  /** Beyond 5 MiB a cover is refused before anything is read. */
  lemma TooLargeExactly(b: Bytes)
    ensures Inspect(b) == TooLarge <==> |b| > 5 * 0x10_0000
  {
    if |b| >= 4 && !IsPng(b) { ScanNeverTooLarge(b, 2); }
  }

  lemma {:induction false} ScanNeverTooLarge(b: Bytes, at: nat)
    requires at <= |b|
    ensures Scan(b, at) != TooLarge
    decreases |b| - at
  {
    if at < |b| && b[at] == 0xff {
      var m := SkipFill(b, at + 1);
      if m < |b| && !Forbidden(b[m]) {
        if b[m] == 1 {
          ScanNeverTooLarge(b, m + 1);
        } else if m + 3 <= |b| && U16(b, m + 1) >= 2 && m + 1 + U16(b, m + 1) <= |b| {
          ScanNeverTooLarge(b, m + 1 + U16(b, m + 1));
        }
      }
    }
  }
}
