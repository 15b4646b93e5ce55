/** The hand-written request readers of the Thrift server, against the generated writers.
    Every request travels as an argument struct whose field 1 is the request struct. */
module Requests {
  import opened Domain
  import opened Thrift

  /** Which request: it determines the fields the reader knows. */
  datatype Shape = TokenRequest | AuthRequest | OrderIdRequest | FailOrderRequest | HeartbeatRequest

  /** The reader's local variables. `one` is the token (or the name), `two` the order id (or the role),
      `three` the reason; a request that has no such field leaves the variable at its zero value. */
  datatype Vars = Vars(one: string, two: string, three: string, place: Location)

  const Unset := Vars("", "", "", Location(0.0, 0.0))

  datatype Target = One | Two | Three | Place | Unknown

  /** The field-id switch of each reader. */
  function TargetOf(shape: Shape, id: int): Target {
    match id
    case 1 => One
    case 2 =>
      (match shape
       case AuthRequest => Unknown
       case HeartbeatRequest => Place
       case _ => Two)
    case 3 => if shape == FailOrderRequest then Three else Unknown
    case _ => Unknown
  }

  function SetText(vars: Vars, target: Target, s: string): Vars {
    match target
    case One => vars.(one := s)
    case Two => vars.(two := s)
    case Three => vars.(three := s)
    case _ => vars
  }

  // ---------- Readers over tokens ----------

  /** The field loop of a location, after its struct has begun. */
  function ReadPlaceFields(ts: seq<Token>, loc: Location): (r: Option<(Location, seq<Token>)>)
    ensures r.Some? ==> |r.value.1| < |ts|
    decreases |ts|
  {
    if ts == [] then None
    else if ts[0].FieldStop? then
      var end := Expect(Some(ts[1..]), StructEnd);
      if end.None? then None else Some((loc, end.value))
    else if !ts[0].FieldBegin? then None
    else if ts[0].id == 1 || ts[0].id == 2 then
      if |ts| < 2 || !ts[1].Double? then None
      else
        var end := Expect(Some(ts[2..]), FieldEnd);
        if end.None? then None
        else ReadPlaceFields(end.value, if ts[0].id == 1 then loc.(lat := ts[1].d) else loc.(lng := ts[1].d))
    else
      var end := Expect(Skip(ts[1..], ts[0].ty, SkipDepth), FieldEnd);
      if end.None? then None else ReadPlaceFields(end.value, loc)
  }

  function ReadPlace(ts: seq<Token>): (r: Option<(Location, seq<Token>)>)
    ensures r.Some? ==> |r.value.1| < |ts|
  {
    if ts == [] || !ts[0].StructBegin? then None else ReadPlaceFields(ts[1..], Location(0.0, 0.0))
  }

  /** The value of one request field, without its end. A text field is read whatever its announced type. */
  function ReadValue(shape: Shape, ty: Type, id: int, ts: seq<Token>, vars: Vars): (r: Option<(Vars, seq<Token>)>)
    ensures r.Some? ==> |r.value.1| < |ts|
  {
    var target := TargetOf(shape, id);
    if target == Unknown || (target == Place && ty != STRUCT) then
      var rest := Skip(ts, ty, SkipDepth);
      if rest.None? then None else Some((vars, rest.value))
    else if target == Place then
      var r := ReadPlace(ts);
      if r.None? then None else Some((vars.(place := r.value.0), r.value.1))
    else if ts == [] || !ts[0].Text? then None
    else Some((SetText(vars, target, ts[0].s), ts[1..]))
  }

  /** The field loop of a request, after its struct has begun. */
  function ReadRequest(shape: Shape, ts: seq<Token>, vars: Vars): (r: Option<(Vars, seq<Token>)>)
    ensures r.Some? ==> |r.value.1| < |ts|
    decreases |ts|
  {
    if ts == [] then None
    else if ts[0].FieldStop? then
      var end := Expect(Some(ts[1..]), StructEnd);
      if end.None? then None else Some((vars, end.value))
    else if !ts[0].FieldBegin? then None
    else
      var r := ReadValue(shape, ts[0].ty, ts[0].id, ts[1..], vars);
      if r.None? then None
      else
        var end := Expect(Some(r.value.1), FieldEnd);
        if end.None? then None else ReadRequest(shape, end.value, r.value.0)
  }

  /** The value of one argument, without its end. */
  function ReadArg(shape: Shape, ty: Type, id: int, ts: seq<Token>, vars: Vars): (r: Option<(Vars, seq<Token>)>)
    ensures r.Some? ==> |r.value.1| < |ts|
  {
    if id == 1 && ty == STRUCT then
      if ts == [] || !ts[0].StructBegin? then None else ReadRequest(shape, ts[1..], vars)
    else
      var rest := Skip(ts, ty, SkipDepth);
      if rest.None? then None else Some((vars, rest.value))
  }

  /** The field loop of the argument struct, and the end of the message. */
  function ReadArgs(shape: Shape, ts: seq<Token>, vars: Vars): (r: Option<(Vars, seq<Token>)>)
    decreases |ts|
  {
    if ts == [] then None
    else if ts[0].FieldStop? then
      var end := Expect(Expect(Some(ts[1..]), StructEnd), MessageEnd);
      if end.None? then None else Some((vars, end.value))
    else if !ts[0].FieldBegin? then None
    else
      var r := ReadArg(shape, ts[0].ty, ts[0].id, ts[1..], vars);
      if r.None? then None
      else
        var end := Expect(Some(r.value.1), FieldEnd);
        if end.None? then None else ReadArgs(shape, end.value, r.value.0)
  }

  function ReadMessage(shape: Shape, ts: seq<Token>): Option<(Vars, seq<Token>)> {
    if ts == [] || !ts[0].StructBegin? then None else ReadArgs(shape, ts[1..], Unset)
  }

  // ---------- What the fields mean ----------

  function PlaceField(loc: Location, f: Field): Location {
    if !f.value.VDouble? then loc
    else if f.id == 1 then loc.(lat := f.value.d)
    else if f.id == 2 then loc.(lng := f.value.d)
    else loc
  }

  function PlaceOf(fields: seq<Field>, loc: Location): Location {
    if fields == [] then loc else PlaceOf(fields[1..], PlaceField(loc, fields[0]))
  }

  function RequestField(shape: Shape, vars: Vars, f: Field): Vars {
    match TargetOf(shape, f.id)
    case Unknown => vars
    case Place => if f.value.VStruct? then vars.(place := PlaceOf(f.value.fields, Location(0.0, 0.0))) else vars
    case target => if f.value.VText? then SetText(vars, target, f.value.s) else vars
  }

  function RequestOf(shape: Shape, fields: seq<Field>, vars: Vars): Vars {
    if fields == [] then vars else RequestOf(shape, fields[1..], RequestField(shape, vars, fields[0]))
  }

  predicate IsRequestArg(f: Field) {
    f.id == 1 && f.value.VStruct?
  }

  function ArgField(shape: Shape, vars: Vars, f: Field): Vars {
    if IsRequestArg(f) then RequestOf(shape, f.value.fields, vars) else vars
  }

  function ArgsOf(shape: Shape, args: seq<Field>, vars: Vars): Vars {
    if args == [] then vars else ArgsOf(shape, args[1..], ArgField(shape, vars, args[0]))
  }

  /** The fields the reader knows have the type it reads, and it can skip the others. */
  predicate PlaceReadable(f: Field) {
    if f.id == 1 || f.id == 2 then f.value.VDouble? else Skippable(f.value)
  }

  predicate RequestReadable(shape: Shape, f: Field) {
    match TargetOf(shape, f.id)
    case Unknown => Skippable(f.value)
    case Place => if f.value.VStruct? then forall g :: g in f.value.fields ==> PlaceReadable(g) else Skippable(f.value)
    case _ => f.value.VText?
  }

  predicate ArgReadable(shape: Shape, f: Field) {
    if IsRequestArg(f) then forall g :: g in f.value.fields ==> RequestReadable(shape, g) else Skippable(f.value)
  }

  // ---------- Reading what was encoded ----------

  lemma ReadsPlaceField(f: Field, loc: Location, tail: seq<Token>)
    requires PlaceReadable(f)
    ensures ReadPlaceFields(EncodeField(f) + tail, loc) == ReadPlaceFields(tail, PlaceField(loc, f))
  {
    FieldThen(f, tail);
    if Skippable(f.value) {
      SkipEncodedField(f, tail, SkipDepth);
    }
  }

  lemma {:induction false} ReadsPlace(fields: seq<Field>, loc: Location, rest: seq<Token>)
    requires forall f :: f in fields ==> PlaceReadable(f)
    ensures ReadPlaceFields(EncodeFields(fields) + (Stop + rest), loc) == Some((PlaceOf(fields, loc), rest))
    decreases |fields|
  {
    StopThen(rest);
    if fields == [] {
      assert EncodeFields(fields) + (Stop + rest) == Stop + rest;
    } else {
      var f, tail := fields[0], EncodeFields(fields[1..]) + (Stop + rest);
      Regroup(EncodeField(f), EncodeFields(fields[1..]), Stop + rest);
      assert f in fields;
      ReadsPlaceField(f, loc, tail);
      ReadsPlace(fields[1..], PlaceField(loc, f), rest);
    }
  }

  lemma ReadsValue(shape: Shape, f: Field, vars: Vars, rest: seq<Token>)
    requires RequestReadable(shape, f)
    ensures ReadValue(shape, TypeOf(f.value), f.id, Encode(f.value) + rest, vars) ==
            Some((RequestField(shape, vars, f), rest))
  {
    var ts := Encode(f.value) + rest;
    if Skippable(f.value) {
      SkipEncoded(f.value, rest, SkipDepth);
    }
    if TargetOf(shape, f.id) == Place && f.value.VStruct? {
      ReadsPlace(f.value.fields, Location(0.0, 0.0), rest);
      StructThen(f.value.fields, rest);
    } else if f.value.VText? {
      assert ts == [Text(f.value.s)] + rest && ts[1..] == rest;
    }
  }

  lemma ReadsRequestField(shape: Shape, f: Field, vars: Vars, tail: seq<Token>)
    requires RequestReadable(shape, f)
    ensures ReadRequest(shape, EncodeField(f) + tail, vars) == ReadRequest(shape, tail, RequestField(shape, vars, f))
  {
    FieldThen(f, tail);
    ReadsValue(shape, f, vars, [FieldEnd] + tail);
  }

  lemma {:induction false} ReadsRequest(shape: Shape, fields: seq<Field>, vars: Vars, rest: seq<Token>)
    requires forall f :: f in fields ==> RequestReadable(shape, f)
    ensures ReadRequest(shape, EncodeFields(fields) + (Stop + rest), vars) ==
            Some((RequestOf(shape, fields, vars), rest))
    decreases |fields|
  {
    StopThen(rest);
    if fields == [] {
      assert EncodeFields(fields) + (Stop + rest) == Stop + rest;
    } else {
      var f, tail := fields[0], EncodeFields(fields[1..]) + (Stop + rest);
      Regroup(EncodeField(f), EncodeFields(fields[1..]), Stop + rest);
      assert f in fields;
      ReadsRequestField(shape, f, vars, tail);
      ReadsRequest(shape, fields[1..], RequestField(shape, vars, f), rest);
    }
  }

  lemma ReadsArg(shape: Shape, f: Field, vars: Vars, rest: seq<Token>)
    requires ArgReadable(shape, f)
    ensures ReadArg(shape, TypeOf(f.value), f.id, Encode(f.value) + rest, vars) ==
            Some((ArgField(shape, vars, f), rest))
  {
    if IsRequestArg(f) {
      ReadsRequest(shape, f.value.fields, vars, rest);
      StructThen(f.value.fields, rest);
    } else {
      SkipEncoded(f.value, rest, SkipDepth);
    }
  }

  lemma ReadsEnd(shape: Shape, vars: Vars, rest: seq<Token>)
    ensures ReadArgs(shape, Stop + ([MessageEnd] + rest), vars) == Some((vars, rest))
  {
    StopThen([MessageEnd] + rest);
    Tail(MessageEnd, rest);
  }

  lemma ReadsArgField(shape: Shape, f: Field, vars: Vars, tail: seq<Token>)
    requires ArgReadable(shape, f)
    ensures ReadArgs(shape, EncodeField(f) + tail, vars) == ReadArgs(shape, tail, ArgField(shape, vars, f))
  {
    FieldThen(f, tail);
    ReadsArg(shape, f, vars, [FieldEnd] + tail);
  }

  lemma {:induction false} ReadsArgs(shape: Shape, args: seq<Field>, vars: Vars, rest: seq<Token>)
    requires forall f :: f in args ==> ArgReadable(shape, f)
    ensures ReadArgs(shape, EncodeFields(args) + (Stop + ([MessageEnd] + rest)), vars) ==
            Some((ArgsOf(shape, args, vars), rest))
    decreases |args|
  {
    var end := [MessageEnd] + rest;
    if args == [] {
      assert EncodeFields(args) + (Stop + end) == Stop + end;
      ReadsEnd(shape, vars, rest);
    } else {
      var f, tail := args[0], EncodeFields(args[1..]) + (Stop + end);
      Regroup(EncodeField(f), EncodeFields(args[1..]), Stop + end);
      assert f in args;
      ReadsArgField(shape, f, vars, tail);
      ReadsArgs(shape, args[1..], ArgField(shape, vars, f), rest);
    }
  }

  // ---------- Unknown fields change nothing ----------

  function KnownPlace(fields: seq<Field>): seq<Field> {
    if fields == [] then []
    else (if fields[0].id == 1 || fields[0].id == 2 then [fields[0]] else []) + KnownPlace(fields[1..])
  }

  /** The number of fields of each request; their ids count from one. */
  function FieldCount(shape: Shape): nat {
    match shape
    case AuthRequest => 1
    case FailOrderRequest => 3
    case _ => 2
  }

  function KnownFields(shape: Shape, fields: seq<Field>): seq<Field> {
    if fields == [] then []
    else (if 1 <= fields[0].id <= FieldCount(shape) then [fields[0]] else []) + KnownFields(shape, fields[1..])
  }

  function RequestArgs(args: seq<Field>): seq<Field> {
    if args == [] then [] else (if IsRequestArg(args[0]) then [args[0]] else []) + RequestArgs(args[1..])
  }

  lemma {:induction false} PlaceOfKnown(fields: seq<Field>, loc: Location)
    ensures PlaceOf(fields, loc) == PlaceOf(KnownPlace(fields), loc)
    ensures forall f :: f in fields && (f.id == 1 || f.id == 2) ==> f in KnownPlace(fields)
    decreases |fields|
  {
    if fields != [] {
      PlaceOfKnown(fields[1..], PlaceField(loc, fields[0]));
      var rest := KnownPlace(fields[1..]);
      assert ([fields[0]] + rest)[1..] == rest && [] + rest == rest;
    }
  }

  lemma {:induction false} RequestOfKnown(shape: Shape, fields: seq<Field>, vars: Vars)
    ensures RequestOf(shape, fields, vars) == RequestOf(shape, KnownFields(shape, fields), vars)
    ensures forall f :: f in fields && 1 <= f.id <= FieldCount(shape) ==> f in KnownFields(shape, fields)
    decreases |fields|
  {
    if fields != [] {
      RequestOfKnown(shape, fields[1..], RequestField(shape, vars, fields[0]));
      var rest := KnownFields(shape, fields[1..]);
      assert ([fields[0]] + rest)[1..] == rest && [] + rest == rest;
    }
  }

  lemma {:induction false} ArgsOfKnown(shape: Shape, args: seq<Field>, vars: Vars)
    ensures ArgsOf(shape, args, vars) == ArgsOf(shape, RequestArgs(args), vars)
    ensures forall f :: f in args && IsRequestArg(f) ==> f in RequestArgs(args)
    ensures forall f :: f in RequestArgs(args) ==> f in args
    decreases |args|
  {
    if args != [] {
      ArgsOfKnown(shape, args[1..], ArgField(shape, vars, args[0]));
      var rest := RequestArgs(args[1..]);
      assert ([args[0]] + rest)[1..] == rest && [] + rest == rest;
    }
  }

  // ---------- Round trip ----------

  /** A request as the generated client holds it; one without such a field has none in the message. */
  datatype Request = Request(one: string, two: string, three: string, place: Option<Location>)

  /** The fields the generated writers emit, in their order; a nil pointer is written as an empty struct. */
  function WrittenPlace(loc: Option<Location>): seq<Field> {
    if loc.None? then [] else [Field(1, VDouble(loc.value.lat)), Field(2, VDouble(loc.value.lng))]
  }

  function TextFields(shape: Shape, req: Request): seq<Field> {
    match shape
    case AuthRequest => [Field(1, VText(req.one))]
    case HeartbeatRequest => [Field(1, VText(req.one))]
    case FailOrderRequest => [Field(1, VText(req.one)), Field(2, VText(req.two)), Field(3, VText(req.three))]
    case _ => [Field(1, VText(req.one)), Field(2, VText(req.two))]
  }

  function Written(shape: Shape, req: Option<Request>, place: seq<Field>): seq<Field> {
    if req.None? then []
    else TextFields(shape, req.value) + (if shape == HeartbeatRequest then [Field(2, VStruct(place))] else [])
  }

  function PlaceSent(req: Option<Request>): Option<Location> {
    if req.None? then None else req.value.place
  }

  /** What the server should get: the values of the request's own fields, and zero values for nil pointers. */
  function Received(shape: Shape, req: Option<Request>): Vars {
    if req.None? then Vars("", "", "", Location(0.0, 0.0))
    else
      Vars(req.value.one,
           if shape == AuthRequest || shape == HeartbeatRequest then "" else req.value.two,
           if shape == FailOrderRequest then req.value.three else "",
           if shape == HeartbeatRequest && req.value.place.Some? then req.value.place.value else Location(0.0, 0.0))
  }

  lemma PlaceOfNext(f: Field, rest: seq<Field>, loc: Location)
    ensures PlaceOf([f] + rest, loc) == PlaceOf(rest, PlaceField(loc, f))
  {
    assert ([f] + rest)[1..] == rest;
  }

  lemma RequestOfNext(shape: Shape, f: Field, rest: seq<Field>, vars: Vars)
    ensures RequestOf(shape, [f] + rest, vars) == RequestOf(shape, rest, RequestField(shape, vars, f))
  {
    assert ([f] + rest)[1..] == rest;
  }

  /** The written fields mean the values they were written from. */
  lemma WrittenMeans(shape: Shape, req: Option<Request>, place: seq<Field>)
    requires shape == HeartbeatRequest && req.Some? ==>
               PlaceOf(place, Unset.place) == Received(shape, req).place
    ensures RequestOf(shape, Written(shape, req, place), Unset) == Received(shape, req)
  {
    var w := Written(shape, req, place);
    if |w| > 0 {
      var v1 := RequestField(shape, Unset, w[0]);
      assert w == [w[0]] + w[1..];
      RequestOfNext(shape, w[0], w[1..], Unset);
      if |w| > 1 {
        var v2 := RequestField(shape, v1, w[1]);
        assert w[1..] == [w[1]] + w[2..];
        RequestOfNext(shape, w[1], w[2..], v1);
        if |w| > 2 {
          assert w[2..] == [w[2]] + [];
          RequestOfNext(shape, w[2], [], v2);
        }
      }
    }
  }

  lemma PlaceMeans(place: seq<Field>, loc: Option<Location>)
    requires KnownPlace(place) == WrittenPlace(loc)
    ensures PlaceOf(place, Unset.place) == if loc.Some? then loc.value else Unset.place
    ensures forall f :: f in place && (f.id == 1 || f.id == 2) ==> PlaceReadable(f)
  {
    var zero, w := Unset.place, WrittenPlace(loc);
    PlaceOfKnown(place, zero);
    if loc.Some? {
      assert w == [w[0]] + ([w[1]] + []);
      PlaceOfNext(w[0], [w[1]] + [], zero);
      PlaceOfNext(w[1], [], PlaceField(zero, w[0]));
    }
  }

  /** Every message of readable arguments is read as what its fields mean. */
  lemma ReadsMessage(shape: Shape, args: seq<Field>, rest: seq<Token>)
    requires forall f :: f in args ==> ArgReadable(shape, f)
    ensures ReadMessage(shape, Encode(VStruct(args)) + ([MessageEnd] + rest)) ==
            Some((ArgsOf(shape, args, Unset), rest))
  {
    StructThen(args, [MessageEnd] + rest);
    ReadsArgs(shape, args, Unset, rest);
  }

  /** The request as written, with fields among its own and its location's that the reader can skip. */
  predicate Padded(shape: Shape, req: Option<Request>, inner: seq<Field>, place: seq<Field>) {
    && KnownFields(shape, inner) == Written(shape, req, place)
    && (forall f :: f in inner && !(1 <= f.id <= FieldCount(shape)) ==> Skippable(f.value))
    && (shape == HeartbeatRequest ==>
          && KnownPlace(place) == WrittenPlace(PlaceSent(req))
          && (forall f :: f in place && f.id != 1 && f.id != 2 ==> Skippable(f.value)))
  }

  lemma PaddedReadable(shape: Shape, req: Option<Request>, inner: seq<Field>, place: seq<Field>)
    requires Padded(shape, req, inner, place)
    ensures forall g :: g in inner ==> RequestReadable(shape, g)
  {
    RequestOfKnown(shape, inner, Unset);
    if shape == HeartbeatRequest {
      PlaceMeans(place, PlaceSent(req));
    }
    forall g | g in inner ensures RequestReadable(shape, g) {
      if 1 <= g.id <= FieldCount(shape) {
        assert g in Written(shape, req, place);
      }
    }
  }

  lemma PaddedMeans(shape: Shape, req: Option<Request>, inner: seq<Field>, place: seq<Field>)
    requires Padded(shape, req, inner, place)
    ensures RequestOf(shape, inner, Unset) == Received(shape, req)
  {
    RequestOfKnown(shape, inner, Unset);
    if shape == HeartbeatRequest {
      PlaceMeans(place, PlaceSent(req));
    }
    WrittenMeans(shape, req, place);
  }

  /** Round trip: a request as the generated code writes it, with any fields the reader does not know but can
      skip inserted anywhere among the arguments, in the request and in its location, is read back as the
      same values, and exactly the message is consumed. */
  lemma RoundTrip(shape: Shape, req: Option<Request>, args: seq<Field>, inner: seq<Field>, place: seq<Field>,
                  rest: seq<Token>)
    requires Padded(shape, req, inner, place)
    requires RequestArgs(args) == [Field(1, VStruct(inner))]
    requires forall f :: f in args && !IsRequestArg(f) ==> Skippable(f.value)
    ensures ReadMessage(shape, Encode(VStruct(args)) + ([MessageEnd] + rest)) == Some((Received(shape, req), rest))
  {
    var request := Field(1, VStruct(inner));
    ArgsOfKnown(shape, args, Unset);
    PaddedReadable(shape, req, inner, place);
    PaddedMeans(shape, req, inner, place);
    ReadsMessage(shape, args, rest);
    assert ArgsOf(shape, [request], Unset) == Received(shape, req) by {
      assert [request][1..] == [];
    }
  }
}
