/** The PNG header check of `analyze_screenshot` (`game/test_framework.py`):
    the 8-byte signature of section 5.2 of the PNG Specification (second edition)
    and the IHDR width and height, big-endian unsigned 32-bit integers at file
    offsets 16 and 20 (section 11.2.2). The file system is a parameter: `None`
    for a path that does not exist, else the file's bytes. */
module Png {
  import opened Wrappers

  newtype byte = b: int | 0 <= b < 256

  const U32Limit: nat := 0x1_0000_0000

  /** 89 50 4E 47 0D 0A 1A 0A. */
  const Signature: seq<byte> := [0x89, 0x50, 0x4E, 0x47, 0x0D, 0x0A, 0x1A, 0x0A]

  /** `struct.unpack('>I', b)` on four bytes. */
  function BeU32(b: seq<byte>): (v: nat)
    requires |b| == 4
    ensures v < U32Limit
  {
    ((b[0] as nat * 256 + b[1] as nat) * 256 + b[2] as nat) * 256 + b[3] as nat
  }

  /** `struct.pack('>I', v)`. */
  function BeBytes(v: nat): (b: seq<byte>)
    requires v < U32Limit
    ensures |b| == 4
  {
    [(v / 0x100_0000) as byte, (v / 0x1_0000 % 256) as byte, (v / 256 % 256) as byte, (v % 256) as byte]
  }

  lemma DecodeEncode(v: nat)
    requires v < U32Limit
    ensures BeU32(BeBytes(v)) == v
  {
    var b := BeBytes(v);
    assert (b[0] as nat * 256 + b[1] as nat) == v / 0x1_0000;
    assert ((b[0] as nat * 256 + b[1] as nat) * 256 + b[2] as nat) == v / 256;
  }

  lemma EncodeDecode(b: seq<byte>)
    requires |b| == 4
    ensures BeBytes(BeU32(b)) == b
  {
    var v := BeU32(b);
    assert v / 256 == (b[0] as nat * 256 + b[1] as nat) * 256 + b[2] as nat;
    assert v / 0x1_0000 == b[0] as nat * 256 + b[1] as nat;
    assert v / 0x100_0000 == b[0] as nat;
  }

  /** What `analyze_screenshot` gives back: the info dictionary, the error
      dictionary with its message, or the `struct.error` that `unpack` raises
      when a file with a valid signature is shorter than 24 bytes. */
  datatype Analysis =
    | Analysed(width: nat, height: nat, fileSize: nat, path: string)
    | Failed(error: string)
    | UnpackRaised

  const FileNotFound: string := "File not found"
  const NotAPng: string := "Not a valid PNG"

  /** `f.read(24)`: at most the first 24 bytes. */
  function Header(contents: seq<byte>): (h: seq<byte>)
    ensures |h| == if |contents| < 24 then |contents| else 24
    ensures h == contents[..|h|]
  {
    if |contents| < 24 then contents else contents[..24]
  }

  function AnalyzeScreenshot(file: Option<seq<byte>>, path: string): (r: Analysis)
    ensures file.None? <==> r == Failed(FileNotFound)
    ensures file.Some? ==>
      (r == Failed(NotAPng) <==> |file.value| < 8 || file.value[..8] != Signature)
    ensures r.UnpackRaised? <==>
      file.Some? && 8 <= |file.value| < 24 && file.value[..8] == Signature
    ensures file.Some? && 24 <= |file.value| && file.value[..8] == Signature ==>
      r == Analysed(BeU32(file.value[16..20]), BeU32(file.value[20..24]), |file.value|, path)
    ensures r.Analysed? ==>
      && file.Some? && 24 <= |file.value| && file.value[..8] == Signature
      && r.width == BeU32(file.value[16..20])
      && r.height == BeU32(file.value[20..24])
      && r.width < U32Limit && r.height < U32Limit
      && r.fileSize == |file.value| && r.path == path
  {
    match file
    case None => Failed(FileNotFound)
    case Some(contents) =>
      var header := Header(contents);
      var lead := if |header| < 8 then header else header[..8];
      if lead != Signature then Failed(NotAPng)
      else if |header| < 24 then UnpackRaised
      else Analysed(BeU32(header[16..20]), BeU32(header[20..24]), |contents|, path)
  }

  /** The chunk length and type that precede the IHDR fields: 13, "IHDR". */
  const IhdrPrefix: seq<byte> := [0x00, 0x00, 0x00, 0x0D, 0x49, 0x48, 0x44, 0x52]

  /** A file that starts with the signature, the IHDR length and type, and the
      big-endian width and height. */
  function PngFile(width: nat, height: nat, rest: seq<byte>): (f: seq<byte>)
    requires width < U32Limit && height < U32Limit
    ensures |f| == 24 + |rest|
  {
    Signature + IhdrPrefix + BeBytes(width) + BeBytes(height) + rest
  }

  /** Decoding a header built from a width and a height gives them back. */
  lemma AnalyzeRoundTrip(width: nat, height: nat, rest: seq<byte>, path: string)
    requires width < U32Limit && height < U32Limit
    ensures AnalyzeScreenshot(Some(PngFile(width, height, rest)), path)
            == Analysed(width, height, 24 + |rest|, path)
  {
    var f := PngFile(width, height, rest);
    assert f[..8] == Signature;
    assert f[16..20] == BeBytes(width);
    assert f[20..24] == BeBytes(height);
    DecodeEncode(width);
    DecodeEncode(height);
  }
}
