/**
 * lockData's checks around the sealed box: null data is refused, and the output format
 * chooses between base64 text and raw bytes.
 */
module Sealing {
  import opened Wrappers
  import opened Foreign
  import opened LockKeys

  datatype Sealed = Base64Text(text: string) | RawBytes(bytes: Bytes)

  /** The output format when the options leave it out. */
  const DEFAULT_OUTPUT_FORMAT: string := "base64"

  function LowerAscii(c: char): char {
    if 'A' <= c <= 'Z' then (c as int + 32) as char else c
  }

  function ToLowerAscii(s: string): (r: string)
    ensures |r| == |s|
    ensures forall i :: 0 <= i < |s| ==> r[i] == LowerAscii(s[i])
  {
    if s == [] then [] else [LowerAscii(s[0])] + ToLowerAscii(s[1..])
  }

  /** `["base64", "base-64"].includes(outputFormat.toLowerCase())` */
  predicate IsBase64Format(outputFormat: string) {
    ToLowerAscii(outputFormat) == "base64" || ToLowerAscii(outputFormat) == "base-64"
  }

  /** lockData, with `data` already coerced to bytes (None: it was null or undefined) and
      the output format as given in the options (None: left out). */
  function LockData(p: Primitives, data: Option<Bytes>, lockKey: LockKey, outputFormat: Option<string>)
    : (r: Result<Sealed, Failure>)
    ensures r.Err? <==> data.None?
    ensures r.Err? ==> r.error == DataEncryptionFailed
    ensures r.Ok? ==> (r.value.Base64Text? <==> IsBase64Format(outputFormat.GetOr(DEFAULT_OUTPUT_FORMAT)))
    ensures r.Ok? && r.value.Base64Text? ==> r.value.text == p.toBase64(p.seal(data.value, lockKey.encPK))
    ensures r.Ok? && r.value.RawBytes? ==> r.value.bytes == p.seal(data.value, lockKey.encPK)
  {
    match data
    case None => Err(DataEncryptionFailed)
    case Some(bytes) =>
      var sealed := p.seal(bytes, lockKey.encPK);
      if IsBase64Format(outputFormat.GetOr(DEFAULT_OUTPUT_FORMAT)) then Ok(Base64Text(p.toBase64(sealed))) else Ok(RawBytes(sealed))
  }

  /** Lower-casing twice is lower-casing once. */
  lemma {:induction false} LowerAsciiIdempotent(s: string)
    ensures ToLowerAscii(ToLowerAscii(s)) == ToLowerAscii(s)
  {
    if s != [] {
      LowerAsciiIdempotent(s[1..]);
    }
  }

  /** The format test ignores letter case: a format and its lower-cased form select the
      same output. */
  lemma FormatIgnoresCase(outputFormat: string)
    ensures IsBase64Format(ToLowerAscii(outputFormat)) == IsBase64Format(outputFormat)
  {
    LowerAsciiIdempotent(outputFormat);
  }

  /** A string without upper-case letters is its own lower-cased form. */
  lemma LowerAsciiKeepsLowercase(s: string)
    requires forall i :: 0 <= i < |s| ==> !('A' <= s[i] <= 'Z')
    ensures ToLowerAscii(s) == s
  {
  }

  /** Without an output format, lockData returns base64 text. */
  lemma DefaultFormatIsBase64(p: Primitives, bytes: Bytes, lockKey: LockKey)
    ensures LockData(p, Some(bytes), lockKey, None) == Ok(Base64Text(p.toBase64(p.seal(bytes, lockKey.encPK))))
  {
    LowerAsciiKeepsLowercase(DEFAULT_OUTPUT_FORMAT);
  }
}
