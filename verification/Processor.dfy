/** The readers of the server and the writers of the generated client, as programs over protocol streams. */
module Processor {
  import opened Domain
  import opened Thrift
  import opened Requests

  class InProtocol {
    var tokens: seq<Token>

    constructor (tokens: seq<Token>)
      ensures this.tokens == tokens
    {
      this.tokens := tokens;
    }

    /** A call that carries no value: struct begin and end, field end, message end. */
    method Take(tok: Token) returns (ok: bool)
      modifies this
      ensures ok <==> Expect(Some(old(tokens)), tok).Some?
      ensures ok ==> Expect(Some(old(tokens)), tok) == Some(tokens)
    {
      ok := tokens != [] && tokens[0] == tok;
      if ok {
        tokens := tokens[1..];
      }
    }

    method ReadFieldBegin() returns (ok: bool, stop: bool, ty: Type, id: int)
      modifies this
      ensures ok <==> old(tokens) != [] && (old(tokens)[0].FieldBegin? || old(tokens)[0].FieldStop?)
      ensures ok ==> tokens == old(tokens)[1..] && (stop <==> old(tokens)[0].FieldStop?)
      ensures ok && !stop ==> ty == old(tokens)[0].ty && id == old(tokens)[0].id
    {
      ok, stop, ty, id := false, false, STRING, 0;
      if tokens != [] && tokens[0].FieldStop? {
        ok, stop := true, true;
        tokens := tokens[1..];
      } else if tokens != [] && tokens[0].FieldBegin? {
        ok, ty, id := true, tokens[0].ty, tokens[0].id;
        tokens := tokens[1..];
      }
    }

    method ReadString() returns (ok: bool, s: string)
      modifies this
      ensures ok <==> old(tokens) != [] && old(tokens)[0].Text?
      ensures ok ==> tokens == old(tokens)[1..] && s == old(tokens)[0].s
    {
      ok, s := false, "";
      if tokens != [] && tokens[0].Text? {
        ok, s := true, tokens[0].s;
        tokens := tokens[1..];
      }
    }

    method ReadDouble() returns (ok: bool, d: real)
      modifies this
      ensures ok <==> old(tokens) != [] && old(tokens)[0].Double?
      ensures ok ==> tokens == old(tokens)[1..] && d == old(tokens)[0].d
    {
      ok, d := false, 0.0;
      if tokens != [] && tokens[0].Double? {
        ok, d := true, tokens[0].d;
        tokens := tokens[1..];
      }
    }

    method SkipValue(ty: Type) returns (ok: bool)
      modifies this
      ensures ok <==> Skip(old(tokens), ty, SkipDepth).Some?
      ensures ok ==> Skip(old(tokens), ty, SkipDepth) == Some(tokens)
    {
      var r := Skip(tokens, ty, SkipDepth);
      ok := r.Some?;
      if ok {
        tokens := r.value;
      }
    }
  }

  /** What a reader method did, against what it should have read. */
  ghost predicate Reads<T>(expected: Option<(T, seq<Token>)>, ok: bool, value: T, rest: seq<Token>) {
    if expected.None? then !ok else ok && expected.value == (value, rest)
  }

  method ReadLocation(p: InProtocol) returns (ok: bool, loc: Location)
    modifies p
    ensures Reads(ReadPlace(old(p.tokens)), ok, loc, p.tokens)
  {
    var lat, lng := 0.0, 0.0;
    ok := p.Take(StructBegin);
    if !ok { return false, Location(0.0, 0.0); }
    ghost var start := p.tokens;
    while true
      invariant ReadPlaceFields(start, Location(0.0, 0.0)) == ReadPlaceFields(p.tokens, Location(lat, lng))
      decreases |p.tokens|
    {
      var stop, ty, id;
      ok, stop, ty, id := p.ReadFieldBegin();
      if !ok { return false, Location(0.0, 0.0); }
      if stop { break; }
      if id == 1 {
        ok, lat := p.ReadDouble();
      } else if id == 2 {
        ok, lng := p.ReadDouble();
      } else {
        ok := p.SkipValue(ty);
      }
      if !ok { return false, Location(0.0, 0.0); }
      ok := p.Take(FieldEnd);
      if !ok { return false, Location(0.0, 0.0); }
    }
    ok := p.Take(StructEnd);
    loc := Location(lat, lng);
  }

  /** One field of a request, by its id; text is read without looking at the announced type. */
  method ReadRequestField(p: InProtocol, shape: Shape, ty: Type, id: int, vars: Vars) returns (ok: bool, next: Vars)
    modifies p
    ensures Reads(ReadValue(shape, ty, id, old(p.tokens), vars), ok, next, p.tokens)
  {
    next := vars;
    var target := TargetOf(shape, id);
    if target == Unknown || (target == Place && ty != STRUCT) {
      ok := p.SkipValue(ty);
    } else if target == Place {
      var loc;
      ok, loc := ReadLocation(p);
      next := vars.(place := loc);
    } else {
      var s;
      ok, s := p.ReadString();
      next := SetText(vars, target, s);
    }
  }

  method ReadRequestFields(p: InProtocol, shape: Shape, vars: Vars) returns (ok: bool, result: Vars)
    modifies p
    ensures Reads(ReadRequest(shape, old(p.tokens), vars), ok, result, p.tokens)
  {
    result := vars;
    while true
      invariant ReadRequest(shape, old(p.tokens), vars) == ReadRequest(shape, p.tokens, result)
      decreases |p.tokens|
    {
      var stop, ty, id;
      ok, stop, ty, id := p.ReadFieldBegin();
      if !ok { return; }
      if stop { break; }
      ok, result := ReadRequestField(p, shape, ty, id, result);
      if !ok { return; }
      ok := p.Take(FieldEnd);
      if !ok { return; }
    }
    ok := p.Take(StructEnd);
  }

  /** The common body of the request readers. */
  method ReadRequestMessage(p: InProtocol, shape: Shape) returns (ok: bool, vars: Vars)
    modifies p
    ensures Reads(ReadMessage(shape, old(p.tokens)), ok, vars, p.tokens)
  {
    vars := Unset;
    ok := p.Take(StructBegin);
    if !ok { return; }
    ghost var start := p.tokens;
    while true
      invariant ReadArgs(shape, start, Unset) == ReadArgs(shape, p.tokens, vars)
      decreases |p.tokens|
    {
      var stop, ty, id;
      ok, stop, ty, id := p.ReadFieldBegin();
      if !ok { return; }
      if stop { break; }
      if id == 1 && ty == STRUCT {
        ok := p.Take(StructBegin);
        if !ok { return; }
        ok, vars := ReadRequestFields(p, shape, vars);
      } else {
        ok := p.SkipValue(ty);
      }
      if !ok { return; }
      ok := p.Take(FieldEnd);
      if !ok { return; }
    }
    ok := p.Take(StructEnd);
    if !ok { return; }
    ok := p.Take(MessageEnd);
  }

  // ---------- The generated writers ----------

  class OutProtocol {
    var tokens: seq<Token>

    constructor ()
      ensures tokens == []
    {
      tokens := [];
    }

    method Put(tok: Token)
      modifies this
      ensures tokens == old(tokens) + [tok]
    {
      tokens := tokens + [tok];
    }

    method WriteScalarField(ty: Type, id: int, tok: Token)
      modifies this
      ensures tokens == old(tokens) + [FieldBegin(ty, id), tok, FieldEnd]
    {
      Put(FieldBegin(ty, id));
      Put(tok);
      Put(FieldEnd);
    }

    method WriteTextField(id: int, s: string)
      modifies this
      ensures tokens == old(tokens) + EncodeField(Field(id, VText(s)))
    {
      WriteScalarField(STRING, id, Text(s));
    }
  }

  lemma EncodeOne(f: Field)
    ensures EncodeFields([f]) == EncodeField(f)
  {
    assert EncodeFields([f]) == EncodeField(f) + EncodeFields([f][1..]);
  }

  lemma {:induction false} EncodeSnoc(fields: seq<Field>, f: Field)
    ensures EncodeFields(fields + [f]) == EncodeFields(fields) + EncodeField(f)
    decreases |fields|
  {
    if fields == [] {
      assert [] + [f] == [f];
      EncodeOne(f);
    } else {
      assert (fields + [f])[1..] == fields[1..] + [f];
      EncodeSnoc(fields[1..], f);
    }
  }

  method WriteLocation(p: OutProtocol, loc: Option<Location>)
    modifies p
    ensures p.tokens == old(p.tokens) + Encode(VStruct(WrittenPlace(loc)))
  {
    p.Put(StructBegin);
    if loc.Some? {
      p.WriteScalarField(DOUBLE, 1, Double(loc.value.lat));
      p.WriteScalarField(DOUBLE, 2, Double(loc.value.lng));
      EncodeOne(Field(1, VDouble(loc.value.lat)));
      EncodeSnoc([Field(1, VDouble(loc.value.lat))], Field(2, VDouble(loc.value.lng)));
    }
    p.Put(FieldStop);
    p.Put(StructEnd);
  }

  method WriteTextFields(p: OutProtocol, shape: Shape, req: Request)
    modifies p
    ensures p.tokens == old(p.tokens) + EncodeFields(TextFields(shape, req))
  {
    var f1, f2, f3 := Field(1, VText(req.one)), Field(2, VText(req.two)), Field(3, VText(req.three));
    p.WriteTextField(1, req.one);
    EncodeOne(f1);
    if shape != AuthRequest && shape != HeartbeatRequest {
      p.WriteTextField(2, req.two);
      EncodeSnoc([f1], f2);
      if shape == FailOrderRequest {
        p.WriteTextField(3, req.three);
        EncodeSnoc([f1, f2], f3);
      }
    }
  }

  method WritePlaceField(p: OutProtocol, loc: Option<Location>)
    modifies p
    ensures p.tokens == old(p.tokens) + EncodeField(Field(2, VStruct(WrittenPlace(loc))))
  {
    p.Put(FieldBegin(STRUCT, 2));
    WriteLocation(p, loc);
    p.Put(FieldEnd);
  }

  method WriteFields(p: OutProtocol, shape: Shape, req: Request)
    modifies p
    ensures p.tokens == old(p.tokens) + EncodeFields(Written(shape, Some(req), WrittenPlace(req.place)))
  {
    WriteTextFields(p, shape, req);
    if shape == HeartbeatRequest {
      WritePlaceField(p, req.place);
      EncodeSnoc(TextFields(shape, req), Field(2, VStruct(WrittenPlace(req.place))));
    } else {
      assert Written(shape, Some(req), WrittenPlace(req.place)) == TextFields(shape, req);
    }
  }

  method WriteRequest(p: OutProtocol, shape: Shape, req: Option<Request>)
    modifies p
    ensures p.tokens == old(p.tokens) + Encode(VStruct(Written(shape, req, WrittenPlace(PlaceSent(req)))))
  {
    p.Put(StructBegin);
    if req.Some? {
      WriteFields(p, shape, req.value);
    }
    p.Put(FieldStop);
    p.Put(StructEnd);
  }

  /** The argument struct of a call, as the generated client sends it. */
  function Arguments(shape: Shape, req: Option<Request>): Value {
    VStruct([Field(1, VStruct(Written(shape, req, WrittenPlace(PlaceSent(req)))))])
  }

  method WriteArguments(p: OutProtocol, shape: Shape, req: Option<Request>)
    modifies p
    ensures p.tokens == old(p.tokens) + Encode(Arguments(shape, req))
  {
    p.Put(StructBegin);
    WriteRequestArgument(p, shape, req);
    p.Put(FieldStop);
    p.Put(StructEnd);
    OneFieldStruct(old(p.tokens), Field(1, VStruct(Written(shape, req, WrittenPlace(PlaceSent(req))))));
  }

  lemma OneFieldStruct(before: seq<Token>, f: Field)
    ensures before + [StructBegin] + EncodeField(f) + [FieldStop] + [StructEnd] == before + Encode(VStruct([f]))
  {
    EncodeOne(f);
    assert [StructBegin] + EncodeField(f) + [FieldStop, StructEnd] == Encode(VStruct([f]));
  }

  method WriteRequestArgument(p: OutProtocol, shape: Shape, req: Option<Request>)
    modifies p
    ensures p.tokens ==
            old(p.tokens) + EncodeField(Field(1, VStruct(Written(shape, req, WrittenPlace(PlaceSent(req))))))
  {
    p.Put(FieldBegin(STRUCT, 1));
    WriteRequest(p, shape, req);
    p.Put(FieldEnd);
  }

  lemma {:induction false} AllKnown(shape: Shape, fields: seq<Field>)
    requires forall f :: f in fields ==> 1 <= f.id <= FieldCount(shape)
    ensures KnownFields(shape, fields) == fields
    decreases |fields|
  {
    if fields != [] {
      assert fields[0] in fields;
      AllKnown(shape, fields[1..]);
    }
  }

  lemma {:induction false} AllKnownPlace(fields: seq<Field>)
    requires forall f :: f in fields ==> f.id == 1 || f.id == 2
    ensures KnownPlace(fields) == fields
    decreases |fields|
  {
    if fields != [] {
      assert fields[0] in fields;
      AllKnownPlace(fields[1..]);
    }
  }

  lemma WrittenIsPadded(shape: Shape, req: Option<Request>)
    ensures var place := WrittenPlace(PlaceSent(req));
            Padded(shape, req, Written(shape, req, place), place)
  {
    var place := WrittenPlace(PlaceSent(req));
    AllKnown(shape, Written(shape, req, place));
    AllKnownPlace(place);
  }

  /** What the generated client writes, the server reads. */
  lemma GeneratedRoundTrip(shape: Shape, req: Option<Request>, rest: seq<Token>)
    ensures ReadMessage(shape, Encode(Arguments(shape, req)) + ([MessageEnd] + rest)) ==
            Some((Received(shape, req), rest))
  {
    var place := WrittenPlace(PlaceSent(req));
    var request := Field(1, VStruct(Written(shape, req, place)));
    WrittenIsPadded(shape, req);
    assert [request][1..] == [];
    RoundTrip(shape, req, [request], request.value.fields, place, rest);
  }
}
