/** The byte decoder of `read_file_with_encoding_detection`: strict UTF-8,
    then (when the `chardet` module could be imported) the detected encoding
    with replacement, then UTF-8 with replacement. The codecs themselves and
    the detector are foreign code, so they are parameters here. */
module Decoder {
  import opened Text

  newtype byte = x: int | 0 <= x < 256
  type Bytes = seq<byte>

  /** The foreign capabilities the reader calls. A decoder that raises is
      one that returns None. */
  datatype Codecs = Codecs(
    // `raw.decode('utf-8')`
    utf8Strict: Bytes -> Option<string>,
    // `chardet.detect(raw).get('encoding')`, or None when chardet is not importable
    detector: Option<Bytes -> Option<string>>,
    // `raw.decode(enc, errors='replace')`: raises for an encoding Python does not know
    decodeReplacing: (string, Bytes) -> Option<string>,
    // `raw.decode('utf-8', errors='replace')`, which cannot raise
    utf8Replacing: Bytes -> string)

  /** One step of the fallback chain. */
  datatype Step = Strict | Detected(encoding: string) | Replacing

  /** `info.get('encoding') or 'utf-8'`: a missing or empty label becomes 'utf-8'. */
  function Label(detected: Option<string>): (enc: string)
    ensures enc != ""
    ensures enc == "utf-8" || detected == Some(enc)
    ensures detected.Some? && detected.value != "" ==> enc == detected.value
  {
    if detected.Some? && detected.value != "" then detected.value else "utf-8"
  }

  /** The steps the reader may take for `raw`, in the order it takes them. */
  function Chain(raw: Bytes, c: Codecs): seq<Step>
  {
    [Strict]
    + (if c.detector.Some? then [Detected(Label(c.detector.value(raw)))] else [])
    + [Replacing]
  }

  /** What one step yields on its own; None means that step raised. */
  function Attempt(step: Step, raw: Bytes, c: Codecs): Option<string>
  {
    match step
    case Strict => c.utf8Strict(raw)
    case Detected(enc) => c.decodeReplacing(enc, raw)
    case Replacing => Some(c.utf8Replacing(raw))
  }

  /** The decoded text and the steps that were run to obtain it. */
  datatype Decoded = Decoded(text: string, attempts: seq<Step>)

  /** `d` is what a first-success search along the chain gives: the steps run
      are a non-empty prefix of the chain, every one of them but the last
      raised, and the last produced `d.text`. */
  ghost predicate FirstSuccess(d: Decoded, raw: Bytes, c: Codecs) {
    && 1 <= |d.attempts| <= |Chain(raw, c)|
    && d.attempts == Chain(raw, c)[..|d.attempts|]
    && (forall k :: 0 <= k < |d.attempts| - 1 ==> Attempt(d.attempts[k], raw, c).None?)
    && Attempt(d.attempts[|d.attempts| - 1], raw, c) == Some(d.text)
  }

  /** `read_file_with_encoding_detection` after the bytes are read: always
      produces a text, by the earliest step of the chain that succeeds. */
  function Decode(raw: Bytes, c: Codecs): (d: Decoded)
    ensures FirstSuccess(d, raw, c)
  {
    match c.utf8Strict(raw)
    case Some(t) => Decoded(t, [Strict])
    case None =>
      if c.detector.Some? then
        var enc := Label(c.detector.value(raw));
        match c.decodeReplacing(enc, raw)
        case Some(t) => Decoded(t, [Strict, Detected(enc)])
        case None => Decoded(c.utf8Replacing(raw), [Strict, Detected(enc), Replacing])
      else
        Decoded(c.utf8Replacing(raw), [Strict, Replacing])
  }

  /** The first-success rule determines the outcome: any decoding that runs a
      prefix of the chain and stops at its first success is the one `Decode`
      returns. */
  lemma DecodeUnique(d: Decoded, raw: Bytes, c: Codecs)
    requires FirstSuccess(d, raw, c)
    ensures d == Decode(raw, c)
  {
    var chain := Chain(raw, c);
    var n := |d.attempts|;
    assert d.attempts[0] == Strict;
    if c.utf8Strict(raw).Some? {
      assert n == 1;
    } else if c.detector.Some? {
      var enc := Label(c.detector.value(raw));
      assert d.attempts[1] == Detected(enc);
      if c.decodeReplacing(enc, raw).Some? {
        assert n == 2;
      } else {
        assert n == 3;
      }
    } else {
      assert n == 2;
    }
  }

  /** When strict UTF-8 succeeds its text is returned and nothing else runs. */
  lemma StrictWins(raw: Bytes, c: Codecs, t: string)
    requires c.utf8Strict(raw) == Some(t)
    ensures Decode(raw, c) == Decoded(t, [Strict])
  {
    var d := Decode(raw, c);
    assert d.attempts[0] == Strict;
  }

  /** The detector's step runs only after strict UTF-8 failed and only when a
      detector exists, and it uses the detector's label or 'utf-8'. */
  lemma DetectorRunsOnlyAfterStrictFails(raw: Bytes, c: Codecs, enc: string)
    requires Detected(enc) in Decode(raw, c).attempts
    ensures c.utf8Strict(raw).None?
    ensures c.detector.Some?
    ensures enc == Label(c.detector.value(raw))
  {
    var d := Decode(raw, c);
    var k :| 0 <= k < |d.attempts| && d.attempts[k] == Detected(enc);
    assert d.attempts[0] == Strict;
  }

  /** The final replace-decode is reached only when every earlier step failed. */
  lemma ReplacingOnlyAfterAllFail(raw: Bytes, c: Codecs)
    requires Replacing in Decode(raw, c).attempts
    ensures c.utf8Strict(raw).None?
    ensures c.detector.Some? ==> c.decodeReplacing(Label(c.detector.value(raw)), raw).None?
    ensures Decode(raw, c).text == c.utf8Replacing(raw)
  {
    var d := Decode(raw, c);
    assert d.attempts[0] == Strict;
  }
}
