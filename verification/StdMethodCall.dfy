/** Method calls: the name of the method and its argument, back to back in one message. */
module StdMethodCall {
  import opened Bytes
  import opened StdValue
  import opened StdWriter
  import opened StdDecoder

  lemma PairParts(m: seq<byte>, a: Value, b: Value)
    ensures EndSeq([a, b], 0) == End(b, End(a, 0))
    ensures EncodesSeq(m, 0, [a, b]) <==> Encodes(m, 0, a) && Encodes(m, End(a, 0), b)
  {
    hide Encodes, End, SizesFit, Without, Weight;
    assert Front([a, b]) == [a] && Last([a, b]) == b && Front([a]) == [] && Last([a]) == a;
    SeqParts(m, 0, [a, b]);
    SeqParts(m, 0, [a]);
  }

  /** The encoded message, or nothing when the argument has no encoding. */
  method EncodeMethodCall(name: CString, arg: Value) returns (ok: int, buf: array?<byte>)
    requires SizesFit(String(name)) && SizesFit(arg)
    ensures ok == if Without(arg, FLOAT32_ARRAY) then 0 else EINVAL
    ensures ok == 0 ==> buf != null && fresh(buf)
    ensures ok == 0 ==> buf.Length == EndSeq([String(name), arg], 0) && EncodesSeq(buf[..], 0, [String(name), arg])
  {
    var call := String(name);
    assert Without(call, FLOAT32_ARRAY);
    hide Encodes, End, EncodesSeq, EndSeq, SizesFit, Without, Weight;
    PairParts([], call, arg);
    buf := null;
    var size := 0;
    ok, size := CalcValueSize(call, size);
    ok, size := CalcValueSize(arg, size);
    if ok != 0 {
      return;
    }
    buf := new byte[size];
    var w := new Writer(buf, 0);
    ok := w.WriteValue(call);
    ghost var m := buf[..];
    ok := w.WriteValue(arg);
    EncodesFrame(m, buf[..], 0, call);
    PairParts(buf[..], call, arg);
  }

  /** What a receiver makes of the message `m`: a method name and an argument. */
  function DecodeCall(m: seq<byte>): (r: Decoded<(CString, Value)>) {
    var name := Decode(m, 0, |m|);
    if name.Bad? || !name.value.String? then Bad else
      var arg := Decode(m, name.pos, |m|);
      if arg.Bad? then Bad else Ok((name.value.chars, arg.value), arg.pos)
  }

  method DecodeMethodCall(m: seq<byte>) returns (ok: int, name: CString, arg: Value)
    ensures if ok == 0 then DecodeCall(m).Ok? && DecodeCall(m).value == (name, arg)
            else ok == EBADMSG && DecodeCall(m).Bad?
  {
    hide Decode;
    name, arg := [], Null;
    var r := new Reader(m, 0, |m|);
    var v;
    ok, v := r.DecodeValue();
    if ok != 0 {
      return;
    }
    if !v.String? {
      return EBADMSG, name, arg;
    }
    name := v.chars;
    ok, arg := r.DecodeValue();
  }

  /** A call that was encoded is decoded to the same call, from the whole message. */
  lemma MethodCallRoundTrip(m: seq<byte>, name: CString, arg: Value)
    requires SizesFit(String(name)) && SizesFit(arg) && Without(arg, FLOAT32_ARRAY)
    requires EncodesSeq(m, 0, [String(name), arg]) && |m| == EndSeq([String(name), arg], 0)
    ensures DecodeCall(m) == Ok((name, arg), |m|)
  {
    var call := String(name);
    assert Without(call, FLOAT32_ARRAY);
    hide Decode, Encodes, End, EncodesSeq, EndSeq, SizesFit, Without, Weight;
    PairParts(m, call, arg);
    assert End(call, 0) <= |m| by { EncodesParts(m, 0, call); }
    DecodeRoundTrip(m, 0, |m|, call);
    DecodeRoundTrip(m, End(call, 0), |m|, arg);
  }
}
