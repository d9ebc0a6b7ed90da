/** Quilt patch identities of maker-v8-asset-quilt.js: 32 blob bytes, version 1, start and end as little-endian pairs. */
module QuiltPatch {
  import opened Results
  import opened Base64

  predicate RangeOk(start: int, end: int) { 0 < start < end <= 65535 }

  function Low(n: int): int { n % 256 }
  function High(n: int): int { n / 256 }

  function PatchBytes(blob: Bytes, start: int, end: int): Bytes {
    blob + [1, Low(start), High(start), Low(end), High(end)]
  }

  /** makerV8QuiltPatchIdV8; None is a thrown error. */
  function PatchId(blobId: string, start: int, end: int): Option<string> {
    var blob := IdBytes(blobId, 32);
    if blob.None? || !RangeOk(start, end) then None
    else
      assert IsBytes(PatchBytes(blob.value, start, end));
      Some(Url64(PatchBytes(blob.value, start, end)))
  }

  function StartOf(b: Bytes): int
    requires |b| == 37
  { b[33] + 256 * b[34] }

  function EndOf(b: Bytes): int
    requires |b| == 37
  { b[35] + 256 * b[36] }

  predicate PatchOk(b: Bytes)
    requires |b| == 37
  { b[32] == 1 && 0 < StartOf(b) < EndOf(b) }

  /** The quilt and the range a patch identity names. */
  function ReadPatch(value: string): Option<(string, int, int)> {
    var b := IdBytes(value, 37);
    if |value| != 50 || b.None? || !PatchOk(b.value) then None
    else Some((Url64(b.value[..32]), StartOf(b.value), EndOf(b.value)))
  }

  /** Where the aggregator serves an identity from. */
  datatype Path = Blob(id: string) | QuiltPatch(id: string)

  /** makerV8WalrusAssetPathV8 */
  function AssetPath(value: string): Option<Path> {
    if |value| == 50 then
      var b := IdBytes(value, 37);
      if b.Some? && PatchOk(b.value) then Some(QuiltPatch(value)) else None
    else if IdBytes(value, 32).Some? then Some(Blob(value))
    else None
  }

  /** The identity is written into one 37-byte buffer. */
  method MakePatchId(blobId: string, start: int, end: int) returns (r: Option<string>)
    ensures r == PatchId(blobId, start, end)
  {
    var bytes := new int[37];
    var blob := IdBytes(blobId, 32);
    if blob.None? { return None; }
    for k := 0 to 32
      invariant bytes[..k] == blob.value[..k]
    {
      bytes[k] := blob.value[k];
    }
    if !RangeOk(start, end) { return None; }
    bytes[32] := 1;
    bytes[33], bytes[34] := start % 256, start / 256;
    bytes[35], bytes[36] := end % 256, end / 256;
    assert bytes[..32] == blob.value;
    assert bytes[..] == bytes[..32] + [bytes[32], bytes[33], bytes[34], bytes[35], bytes[36]];
    return Some(Url64(bytes[..]));
  }

  lemma PatchBytesRead(blob: Bytes, start: int, end: int)
    requires IsBytes(blob) && |blob| == 32 && RangeOk(start, end)
    ensures var b := PatchBytes(blob, start, end);
      IsBytes(b) && |b| == 37 && b[..32] == blob && PatchOk(b) && StartOf(b) == start && EndOf(b) == end
  {}

  lemma PatchBytesWritten(b: Bytes)
    requires IsBytes(b) && |b| == 37 && PatchOk(b)
    ensures RangeOk(StartOf(b), EndOf(b)) && PatchBytes(b[..32], StartOf(b), EndOf(b)) == b
  {
    var tail := [1, Low(StartOf(b)), High(StartOf(b)), Low(EndOf(b)), High(EndOf(b))];
    assert b[32..] == tail;
    assert b == b[..32] + b[32..];
  }

  /** Every quilt and range has a patch identity of 50 characters, read back and served from the patch path. */
  lemma PatchRoundTrip(blobId: string, start: int, end: int)
    requires IdBytes(blobId, 32).Some? && RangeOk(start, end)
    ensures PatchId(blobId, start, end).Some?
    ensures var id := PatchId(blobId, start, end).value;
      |id| == 50 && ReadPatch(id) == Some((blobId, start, end)) && AssetPath(id) == Some(QuiltPatch(id))
  {
    var b := PatchBytes(IdBytes(blobId, 32).value, start, end);
    PatchBytesRead(IdBytes(blobId, 32).value, start, end);
    IdBytesExact(Url64(b), 37, b);
  }

  lemma PatchIdsDiffer(a: string, aStart: int, aEnd: int, b: string, bStart: int, bEnd: int)
    requires PatchId(a, aStart, aEnd).Some? && PatchId(a, aStart, aEnd) == PatchId(b, bStart, bEnd)
    ensures a == b && aStart == bStart && aEnd == bEnd
  {
    PatchRoundTrip(a, aStart, aEnd);
    PatchRoundTrip(b, bStart, bEnd);
  }

  /** The patch path serves exactly the identities that some quilt and range have; the blob path, canonical blob identities. */
  lemma AssetPathExact(value: string)
    ensures AssetPath(value) == Some(QuiltPatch(value)) <==>
            exists blobId, start, end :: PatchId(blobId, start, end) == Some(value)
    ensures AssetPath(value) == Some(Blob(value)) <==> exists b: Bytes :: IsBytes(b) && |b| == 32 && value == Url64(b)
  {
    forall blobId, start, end | PatchId(blobId, start, end) == Some(value)
      ensures AssetPath(value) == Some(QuiltPatch(value))
    { PatchRoundTrip(blobId, start, end); }
    if AssetPath(value) == Some(QuiltPatch(value)) {
      PatchRead(value);
      var p := ReadPatch(value).value;
      assert PatchId(p.0, p.1, p.2) == Some(value);
    }
    forall b: Bytes | IsBytes(b) && |b| == 32 && value == Url64(b) ensures AssetPath(value) == Some(Blob(value)) {
      IdBytesExact(value, 32, b);
    }
  }

  /** What is read from an identity makes it again. */
  lemma PatchRead(value: string)
    requires ReadPatch(value).Some?
    ensures var p := ReadPatch(value).value; PatchId(p.0, p.1, p.2) == Some(value)
  {
    var b := IdBytes(value, 37).value;
    IdBytesExact(Url64(b[..32]), 32, b[..32]);
    PatchBytesWritten(b);
  }
}
