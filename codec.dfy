/**
 * The value codec of src/sqlite.cpp: the encode switch of set, which turns a
 * typed value into the text of the value column, and the decode switch of
 * get, which turns that text back into a value of the requested type.
 */
module Codec {
  import opened Wrappers
  import opened PropertyTypes
  import Decimal
  import Base64

  predicate NulFree(s: string) { forall i :: 0 <= i < |s| ==> s[i] != '\0' }

  /** A string as a C string reads it: the characters before its first NUL. */
  function CStr(s: string): (r: string)
    ensures |r| <= |s| && r == s[..|r|] && NulFree(r)
    ensures |r| < |s| ==> s[|r|] == '\0'
    ensures NulFree(s) ==> r == s
  {
    if |s| == 0 || s[0] == '\0' then "" else [s[0]] + CStr(s[1..])
  }

  /** The text set writes into the value column for a value. */
  function EncodePayload(v: Value): string
  {
    match v
    case StringValue(s) => s
    case IntValue(i) => Decimal.ToDecimal(i)
    case Int64Value(l) => Decimal.ToDecimal(l)
    case BoolValue(b) => if b then "true" else "false"
    case BlobValue(data) => Base64.Encode(data)
  }

  /**
   * get's conversion of the value column once the stored tag has matched the
   * requested one. None stands for the exceptions std::stoi and std::stoll
   * throw on text they cannot read, for text that is not base64, and for the
   * DOUBLE case, which is not modelled.
   */
  function DecodePayload(p: string, t: Tag): (r: Option<Value>)
    ensures r.Some? ==> TagOf(r.value) == t
    ensures t == DoubleType ==> r == None
  {
    match t
    case StringType => Some(StringValue(p))
    case IntType =>
      (match Decimal.Stoi(p)
       case Some(i) => Some(IntValue(i))
       case None => None)
    case Int64Type =>
      (match Decimal.Stoll(p)
       case Some(l) => Some(Int64Value(l))
       case None => None)
    case DoubleType => None
    case BoolType => Some(BoolValue(p != "false"))
    case BlobType =>
      (match Base64.Decode(p)
       case Some(data) => Some(BlobValue(data))
       case None => None)
  }

  /** What get decodes from the value column set wrote for v: the column passes through a C string first. */
  function ReadBack(v: Value): Option<Value>
  {
    DecodePayload(CStr(EncodePayload(v)), TagOf(v))
  }

  /** Every value except a string with a NUL in it reads back as itself. */
  lemma {:induction false} RoundTrip(v: Value)
    requires v.StringValue? ==> NulFree(v.s)
    ensures ReadBack(v) == Some(v)
  {
    match v
    case StringValue(_) =>
    case IntValue(i) =>
      assert CStr(Decimal.ToDecimal(i)) == Decimal.ToDecimal(i);
      Decimal.StoiToDecimal(i);
    case Int64Value(l) =>
      assert CStr(Decimal.ToDecimal(l)) == Decimal.ToDecimal(l);
      Decimal.StollToDecimal(l);
    case BoolValue(b) =>
      assert NulFree(EncodePayload(v));
    case BlobValue(data) =>
      Base64.EncodeNulFree(data);
      assert CStr(Base64.Encode(data)) == Base64.Encode(data);
      Base64.DecodeEncode(data);
  }

  /** Whatever set writes, get can decode without an exception; a string keeps what precedes its first NUL. */
  lemma ReadBackDefined(v: Value)
    ensures ReadBack(v).Some?
    ensures v.StringValue? ==> ReadBack(v) == Some(StringValue(CStr(v.s)))
  {
    if !v.StringValue? {
      RoundTrip(v);
    }
  }

  /** A string with an embedded NUL comes back cut at the NUL. */
  lemma NulTruncates()
    ensures ReadBack(StringValue("val\0ue")) == Some(StringValue("val"))
  {
    var s := "val\0ue";
    assert CStr(s) == "val" by {
      assert CStr(s[3..]) == "";
      assert CStr(s[2..]) == "l";
      assert CStr(s[1..]) == "al";
    }
  }

  /** A boolean is written as exactly one of the two tokens "true" and "false". */
  lemma BoolTokens(b: bool)
    ensures EncodePayload(BoolValue(b)) == "true" || EncodePayload(BoolValue(b)) == "false"
    ensures EncodePayload(BoolValue(b)) == "false" <==> !b
  {
  }

  /** A boolean payload decodes to true unless it is exactly "false": "0", "" and "FALSE" all read as true. */
  lemma BoolDecoding(p: string)
    ensures DecodePayload(p, BoolType) == Some(BoolValue(true)) <==> p != "false"
    ensures DecodePayload(p, BoolType) == Some(BoolValue(false)) <==> p == "false"
  {
  }
}
