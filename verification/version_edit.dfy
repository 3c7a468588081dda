/** VersionEdit records: the manifest's encoding. */
module VersionEdits {
  import opened DbFormat
  import opened Coding

  datatype Meta = Meta(number: nat, size: nat, smallest: seq<Byte>, largest: seq<Byte>)

  datatype Edit = Edit(comparator: Option<seq<Byte>>, logNumber: Option<nat>, prevLogNumber: Option<nat>,
                       nextFileNumber: Option<nat>, lastSequence: Option<nat>,
                       compactPointers: seq<(nat, seq<Byte>)>, deletedFiles: seq<(nat, nat)>,
                           newFiles: seq<(nat, Meta)>)

  const EMPTY: Edit := Edit(None, None, None, None, None, [], [], [])

  predicate PairLess(a: (nat, nat), b: (nat, nat)) {
    a.0 < b.0 || (a.0 == b.0 && a.1 < b.1)
  }

  // deletedFiles is an ordered set.
  predicate Ascending(ds: seq<(nat, nat)>) {
    forall i, j :: 0 <= i < j < |ds| ==> PairLess(ds[i], ds[j])
  }

  function Insert(ds: seq<(nat, nat)>, d: (nat, nat)): seq<(nat, nat)> {
    if ds == [] then [d]
    else if PairLess(d, ds[0]) then [d] + ds
    else if PairLess(ds[0], d) then [ds[0]] + Insert(ds[1..], d)
    else ds
  }

  // ---- One tagged field ----

  datatype Field =
    | Comparator(name: seq<Byte>)
    | LogNumber(n: nat)
    | NextFileNumber(n: nat)
    | LastSequence(n: nat)
    | CompactPointer(level: nat, key: seq<Byte>)
    | DeletedFile(level: nat, n: nat)
    | NewFile(level: nat, file: Meta)
    | PrevLogNumber(n: nat)

  function Tag(f: Field): nat {
    match f
    case Comparator(_) => 1
    case LogNumber(_) => 2
    case NextFileNumber(_) => 3
    case LastSequence(_) => 4
    case CompactPointer(_, _) => 5
    case DeletedFile(_, _) => 6
    case NewFile(_, _) => 7
    case PrevLogNumber(_) => 9
  }

  function Payload(f: Field): seq<Byte> {
    match f
    case Comparator(s) => PutSlice(s)
    case CompactPointer(l, k) => Varint(l) + PutSlice(k)
    case DeletedFile(l, n) => Varint(l) + Varint(n)
    case NewFile(l, m) => Varint(l) + PutMeta(m)
    case _ => Varint(f.n)
  }

  function PutMeta(m: Meta): seq<Byte> {
    Varint(m.number) + (Varint(m.size) + (PutSlice(m.smallest) + PutSlice(m.largest)))
  }

  function Put(f: Field): seq<Byte> {
    Varint(Tag(f)) + Payload(f)
  }

  function GetLevel(s: seq<Byte>): (r: Option<Parsed<nat>>)
    ensures r.Some? ==> r.value.value < NUM_LEVELS && |r.value.rest| < |s|
  {
    match GetVarint32(s)
    case Some(p) => if p.value < NUM_LEVELS then Some(p) else None
    case None => None
  }

  function Number(tag: nat, n: nat): Field {
    match tag
    case 2 => LogNumber(n)
    case 3 => NextFileNumber(n)
    case 4 => LastSequence(n)
    case _ => PrevLogNumber(n)
  }

  function GetNumber(tag: nat, s: seq<Byte>): (r: Option<Parsed<Field>>)
    ensures r.Some? ==> |r.value.rest| < |s|
  {
    match GetVarint64(s) case None => None case Some(p) => Some(Parsed(Number(tag, p.value), p.rest))
  }

  function GetPointer(s: seq<Byte>): (r: Option<Parsed<Field>>)
    ensures r.Some? ==> |r.value.rest| < |s|
  {
    match GetLevel(s)
    case None => None
    case Some(l) => match GetSlice(l.rest)
      case None => None
      case Some(k) => Some(Parsed(CompactPointer(l.value, k.value), k.rest))
  }

  function GetDeleted(s: seq<Byte>): (r: Option<Parsed<Field>>)
    ensures r.Some? ==> |r.value.rest| < |s|
  {
    match GetLevel(s)
    case None => None
    case Some(l) => match GetVarint64(l.rest)
      case None => None
      case Some(n) => Some(Parsed(DeletedFile(l.value, n.value), n.rest))
  }

  function GetMeta(s: seq<Byte>): (r: Option<Parsed<Meta>>)
    ensures r.Some? ==> |r.value.rest| < |s|
  {
    match GetVarint64(s)
    case None => None
    case Some(n) => match GetVarint64(n.rest)
      case None => None
      case Some(z) => match GetSlice(z.rest)
        case None => None
        case Some(a) => match GetSlice(a.rest)
          case None => None
          case Some(b) => Some(Parsed(Meta(n.value, z.value, a.value, b.value), b.rest))
  }

  function GetNew(s: seq<Byte>): (r: Option<Parsed<Field>>)
    ensures r.Some? ==> |r.value.rest| < |s|
  {
    match GetLevel(s)
    case None => None
    case Some(l) => match GetMeta(l.rest)
      case None => None
      case Some(m) => Some(Parsed(NewFile(l.value, m.value), m.rest))
  }

  /** The body of DecodeFrom's switch. */
  function GetPayload(tag: nat, s: seq<Byte>): (r: Option<Parsed<Field>>)
    ensures r.Some? ==> |r.value.rest| <= |s|
  {
    match tag
    case 1 => (match GetSlice(s) case None => None case Some(p) => Some(Parsed(Comparator(p.value), p.rest)))
    case 2 => GetNumber(tag, s)
    case 3 => GetNumber(tag, s)
    case 4 => GetNumber(tag, s)
    case 5 => GetPointer(s)
    case 6 => GetDeleted(s)
    case 7 => GetNew(s)
    case 9 => GetNumber(tag, s)
    case _ => None
  }

  /** All the fields of a record; None is a corruption status. */
  function ParseFields(s: seq<Byte>): Option<seq<Field>>
    decreases |s|
  {
    match GetVarint32(s)
    case None => if s == [] then Some([]) else None
    case Some(tag) => match GetPayload(tag.value, tag.rest)
      case None => None
      case Some(f) => match ParseFields(f.rest)
        case None => None
        case Some(fs) => Some([f.value] + fs)
  }

  // ---- The fields of an edit ----

  function Name(o: Option<seq<Byte>>): seq<Field> {
    if o.Some? then [Comparator(o.value)] else []
  }

  function Scalar(tag: nat, o: Option<nat>): seq<Field> {
    if o.Some? then [Number(tag, o.value)] else []
  }

  function Scalars(e: Edit): seq<Field> {
    Name(e.comparator) + Scalar(2, e.logNumber) + Scalar(9, e.prevLogNumber) + Scalar(3, e.nextFileNumber) + Scalar(4,
        e.lastSequence)
  }

  function Pointers(ps: seq<(nat, seq<Byte>)>): seq<Field> {
    seq(|ps|, i requires 0 <= i < |ps| => CompactPointer(ps[i].0, ps[i].1))
  }

  function Deletions(ds: seq<(nat, nat)>): seq<Field> {
    seq(|ds|, i requires 0 <= i < |ds| => DeletedFile(ds[i].0, ds[i].1))
  }

  function Additions(fs: seq<(nat, Meta)>): seq<Field> {
    seq(|fs|, i requires 0 <= i < |fs| => NewFile(fs[i].0, fs[i].1))
  }

  function Fields(e: Edit): seq<Field> {
    Scalars(e) + Pointers(e.compactPointers) + Deletions(e.deletedFiles) + Additions(e.newFiles)
  }

  function Set(e: Edit, f: Field): Edit {
    match f
    case Comparator(s) => e.(comparator := Some(s))
    case LogNumber(n) => e.(logNumber := Some(n))
    case NextFileNumber(n) => e.(nextFileNumber := Some(n))
    case LastSequence(n) => e.(lastSequence := Some(n))
    case CompactPointer(l, k) => e.(compactPointers := e.compactPointers + [(l, k)])
    case DeletedFile(l, n) => e.(deletedFiles := Insert(e.deletedFiles, (l, n)))
    case NewFile(l, m) => e.(newFiles := e.newFiles + [(l, m)])
    case PrevLogNumber(n) => e.(prevLogNumber := Some(n))
  }

  function SetAll(e: Edit, fs: seq<Field>): Edit {
    if fs == [] then e else Set(SetAll(e, fs[..|fs| - 1]), fs[|fs| - 1])
  }

  function PutAll(fs: seq<Field>): seq<Byte> {
    if fs == [] then [] else PutAll(fs[..|fs| - 1]) + Put(fs[|fs| - 1])
  }

  // ---- Writing ----

  lemma PutAllAppend(fs: seq<Field>, f: Field)
    ensures PutAll(fs + [f]) == PutAll(fs) + Put(f)
  {
  }

  // Appends one field to a record under construction.
  method Emit(dst: seq<Byte>, ghost base: seq<Byte>, ghost fs: seq<Field>, f: Field) returns (dst': seq<Byte>)
    requires dst == base + PutAll(fs)
    ensures dst' == base + PutAll(fs + [f])
  {
    PutAllAppend(fs, f);
    hide *;
    dst' := dst + Put(f);
  }

  /** EncodeTo. */
  method EncodeTo(e: Edit, dst: seq<Byte>) returns (dst': seq<Byte>)
    ensures dst' == dst + PutAll(Fields(e))
  {
    hide Put, PutAll;
    assert dst == dst + PutAll([]) by { PutNothing(); }
    ghost var fs := [];
    dst' := dst;
    if e.comparator.Some? {
      dst' := Emit(dst', dst, fs, Comparator(e.comparator.value));
      assert fs + Name(e.comparator) == Name(e.comparator);
    }
    fs := Name(e.comparator);
    dst' := EmitScalar(dst', dst, fs, 2, e.logNumber);
    fs := fs + Scalar(2, e.logNumber);
    dst' := EmitScalar(dst', dst, fs, 9, e.prevLogNumber);
    fs := fs + Scalar(9, e.prevLogNumber);
    dst' := EmitScalar(dst', dst, fs, 3, e.nextFileNumber);
    fs := fs + Scalar(3, e.nextFileNumber);
    dst' := EmitScalar(dst', dst, fs, 4, e.lastSequence);
    dst' := EmitLists(e, dst', dst, Scalars(e));
  }

  method EmitScalar(dst: seq<Byte>, ghost base: seq<Byte>, ghost fs: seq<Field>, tag: nat, o: Option<nat>)
                    returns (dst': seq<Byte>)
    requires dst == base + PutAll(fs)
    ensures dst' == base + PutAll(fs + Scalar(tag, o))
  {
    hide Put, PutAll;
    dst' := dst;
    if o.Some? {
      dst' := Emit(dst', base, fs, Number(tag, o.value));
    } else {
      assert fs + [] == fs;
    }
  }

  lemma PutNothing()
    ensures PutAll([]) == []
  {
  }

  method EmitLists(e: Edit, dst: seq<Byte>, ghost base: seq<Byte>, ghost fs: seq<Field>) returns (dst': seq<Byte>)
    requires dst == base + PutAll(fs)
    ensures dst' == base + PutAll(fs + Pointers(e.compactPointers) + Deletions(e.deletedFiles) + Additions(e.newFiles))
  {
    hide Put, PutAll;
    dst' := dst;
    ghost var ps, ds, ns := Pointers(e.compactPointers), Deletions(e.deletedFiles), Additions(e.newFiles);
    assert fs + ps[..0] == fs;
    for i := 0 to |e.compactPointers|
      invariant dst' == base + PutAll(fs + ps[..i])
    {
      dst' := Emit(dst', base, fs + ps[..i], CompactPointer(e.compactPointers[i].0, e.compactPointers[i].1));
      assert fs + ps[..i + 1] == fs + ps[..i] + [ps[i]];
    }
    assert ps[..|ps|] == ps;
    assert fs + ps + ds[..0] == fs + ps;
    for i := 0 to |e.deletedFiles|
      invariant dst' == base + PutAll(fs + ps + ds[..i])
    {
      dst' := Emit(dst', base, fs + ps + ds[..i], DeletedFile(e.deletedFiles[i].0, e.deletedFiles[i].1));
      assert fs + ps + ds[..i + 1] == fs + ps + ds[..i] + [ds[i]];
    }
    assert ds[..|ds|] == ds;
    assert fs + ps + ds + ns[..0] == fs + ps + ds;
    for i := 0 to |e.newFiles|
      invariant dst' == base + PutAll(fs + ps + ds + ns[..i])
    {
      dst' := Emit(dst', base, fs + ps + ds + ns[..i], NewFile(e.newFiles[i].0, e.newFiles[i].1));
      assert fs + ps + ds + ns[..i + 1] == fs + ps + ds + ns[..i] + [ns[i]];
    }
    assert ns[..|ns|] == ns;
  }

  // ---- Reading ----

  lemma SetAllAppend(e: Edit, fs: seq<Field>, f: Field)
    ensures SetAll(e, fs + [f]) == Set(SetAll(e, fs), f)
  {
  }

  ghost function Prepend(done: seq<Field>, o: Option<seq<Field>>): Option<seq<Field>> {
    match o case None => None case Some(fs) => Some(done + fs)
  }

  /** DecodeFrom: fills a cleared edit field by field; None is a corruption status. */
  method DecodeFrom(src: seq<Byte>) returns (r: Option<Edit>)
    ensures r == match ParseFields(src) { case None => None case Some(fs) => Some(SetAll(EMPTY, fs)) }
  {
    var e, input := EMPTY, src;
    hide GetVarint32, GetPayload, Set;
    assert forall fs: seq<Field> :: [] + fs == fs;
    ghost var done: seq<Field> := [];
    while true
      invariant e == SetAll(EMPTY, done)
      invariant ParseFields(src) == Prepend(done, ParseFields(input))
      decreases |input|
    {
      var tag := GetVarint32(input);
      if tag.None? { break; }
      var f := GetPayload(tag.value.value, tag.value.rest);
      if f.None? { return None; }
      SetAllAppend(EMPTY, done, f.value.value);
      ghost var rest := ParseFields(f.value.rest);
      assert rest.Some? ==> done + ([f.value.value] + rest.value) == done + [f.value.value] + rest.value;
      e := Set(e, f.value.value);
      done := done + [f.value.value];
      input := f.value.rest;
    }
    assert input == [] ==> done + [] == done;
    return if input == [] then Some(e) else None;
  }

  // ---- Round trip ----

  predicate Fits(f: Field) {
    match f
    case Comparator(s) => |s| < MOD32
    case CompactPointer(l, k) => l < NUM_LEVELS && |k| < MOD32
    case DeletedFile(l, n) => l < NUM_LEVELS && n < MOD64
    case NewFile(l, m) => l < NUM_LEVELS && m.number < MOD64 && m.size < MOD64 && |m.smallest| < MOD32 &&
        |m.largest| < MOD32
    case _ => f.n < MOD64
  }

  predicate Encodable(e: Edit) {
    Ascending(e.deletedFiles) && forall f :: f in Fields(e) ==> Fits(f)
  }

  lemma MetaBack(m: Meta, rest: seq<Byte>)
    requires m.number < MOD64 && m.size < MOD64 && |m.smallest| < MOD32 && |m.largest| < MOD32
    ensures GetMeta(PutMeta(m) + rest) == Some(Parsed(m, rest))
  {
    hide Varint, PutSlice, GetVarint64, GetSlice;
    var r4 := PutSlice(m.largest) + rest;
    var r3 := PutSlice(m.smallest) + r4;
    var r2 := Varint(m.size) + r3;
    assert PutMeta(m) + rest == Varint(m.number) + r2;
    GetPutVarint64(m.number, r2);
    GetPutVarint64(m.size, r3);
    GetPutSlice(m.smallest, r4);
    GetPutSlice(m.largest, rest);
  }

  lemma PayloadBack(f: Field, rest: seq<Byte>)
    requires Fits(f)
    ensures GetPayload(Tag(f), Payload(f) + rest) == Some(Parsed(f, rest))
  {
    hide Varint, PutSlice, GetVarint64, GetVarint32, GetSlice, PutMeta, GetMeta;
    match f {
      case Comparator(s) => GetPutSlice(s, rest);
      case CompactPointer(l, k) =>
        assert Payload(f) + rest == Varint(l) + (PutSlice(k) + rest);
        GetPutVarint32(l, PutSlice(k) + rest);
        GetPutSlice(k, rest);
      case DeletedFile(l, n) =>
        assert Payload(f) + rest == Varint(l) + (Varint(n) + rest);
        GetPutVarint32(l, Varint(n) + rest);
        GetPutVarint64(n, rest);
      case NewFile(l, m) =>
        assert Payload(f) + rest == Varint(l) + (PutMeta(m) + rest);
        GetPutVarint32(l, PutMeta(m) + rest);
        MetaBack(m, rest);
      case _ => GetPutVarint64(f.n, rest);
    }
  }

  lemma FieldBack(f: Field, tail: seq<Field>, rest: seq<Byte>)
    requires Fits(f) && ParseFields(rest) == Some(tail)
    ensures ParseFields(Put(f) + rest) == Some([f] + tail)
  {
    hide Varint, Payload, GetVarint32, GetPayload, Fits;
    var s := Put(f) + rest;
    assert s == Varint(Tag(f)) + (Payload(f) + rest);
    GetPutVarint32(Tag(f), Payload(f) + rest);
    PayloadBack(f, rest);
  }

  lemma {:induction false} FieldsBack(fs: seq<Field>, tail: seq<Field>, rest: seq<Byte>)
    requires forall f :: f in fs ==> Fits(f)
    requires ParseFields(rest) == Some(tail)
    ensures ParseFields(PutAll(fs) + rest) == Some(fs + tail)
    decreases |fs|
  {
    hide Put, ParseFields, Fits;
    if fs == [] {
      assert PutAll(fs) + rest == rest && fs + tail == tail;
    } else {
      var init, f := fs[..|fs| - 1], fs[|fs| - 1];
      assert f in fs;
      FieldBack(f, tail, rest);
      FieldsBack(init, [f] + tail, Put(f) + rest);
      assert PutAll(fs) + rest == PutAll(init) + (Put(f) + rest);
      assert init + ([f] + tail) == fs + tail;
    }
  }

  lemma {:induction false} SetAllConcat(e: Edit, a: seq<Field>, b: seq<Field>)
    ensures SetAll(e, a + b) == SetAll(SetAll(e, a), b)
  {
    if b == [] {
      assert a + b == a;
    } else {
      SetAllConcat(e, a, b[..|b| - 1]);
      assert (a + b)[..|a + b| - 1] == a + b[..|b| - 1];
    }
  }

  lemma {:induction false} PointersBack(e: Edit, ps: seq<(nat, seq<Byte>)>)
    requires e.compactPointers == []
    ensures SetAll(e, Pointers(ps)) == e.(compactPointers := ps)
  {
    if ps != [] {
      PointersBack(e, ps[..|ps| - 1]);
      assert Pointers(ps)[..|ps| - 1] == Pointers(ps[..|ps| - 1]);
    }
  }

  lemma {:induction false} AdditionsBack(e: Edit, fs: seq<(nat, Meta)>)
    requires e.newFiles == []
    ensures SetAll(e, Additions(fs)) == e.(newFiles := fs)
  {
    if fs != [] {
      AdditionsBack(e, fs[..|fs| - 1]);
      assert Additions(fs)[..|fs| - 1] == Additions(fs[..|fs| - 1]);
    }
  }

  lemma {:induction false} InsertLast(ds: seq<(nat, nat)>, d: (nat, nat))
    requires forall i :: 0 <= i < |ds| ==> PairLess(ds[i], d)
    ensures Insert(ds, d) == ds + [d]
  {
    if ds != [] {
      InsertLast(ds[1..], d);
      assert ds + [d] == [ds[0]] + (ds[1..] + [d]);
    }
  }

  lemma {:induction false} DeletionsBack(e: Edit, ds: seq<(nat, nat)>)
    requires e.deletedFiles == [] && Ascending(ds)
    ensures SetAll(e, Deletions(ds)) == e.(deletedFiles := ds)
  {
    if ds != [] {
      var init := ds[..|ds| - 1];
      DeletionsBack(e, init);
      assert Deletions(ds)[..|ds| - 1] == Deletions(init);
      InsertLast(init, ds[|ds| - 1]);
    }
  }

  lemma SetName(e: Edit, o: Option<seq<Byte>>)
    ensures SetAll(e, Name(o)) == if o.Some? then e.(comparator := o) else e
  {
  }

  lemma SetScalar(e: Edit, tag: nat, o: Option<nat>)
    ensures SetAll(e, Scalar(tag, o)) == if o.Some? then Set(e, Number(tag, o.value)) else e
  {
  }

  lemma ScalarsBack(e: Edit)
    ensures SetAll(EMPTY, Scalars(e)) == e.(compactPointers := [], deletedFiles := [], newFiles := [])
  {
    hide SetAll, Name, Scalar;
    var a, b, c, d, l := Name(e.comparator), Scalar(2, e.logNumber), Scalar(9, e.prevLogNumber),
                         Scalar(3, e.nextFileNumber), Scalar(4, e.lastSequence);
    var ea := EMPTY.(comparator := e.comparator);
    var eb := ea.(logNumber := e.logNumber);
    var ec := eb.(prevLogNumber := e.prevLogNumber);
    var ed := ec.(nextFileNumber := e.nextFileNumber);
    SetName(EMPTY, e.comparator);
    SetScalar(ea, 2, e.logNumber);
    SetScalar(eb, 9, e.prevLogNumber);
    SetScalar(ec, 3, e.nextFileNumber);
    SetScalar(ed, 4, e.lastSequence);
    SetAllConcat(EMPTY, a, b);
    assert SetAll(EMPTY, a + b) == eb;
    SetAllConcat(EMPTY, a + b, c);
    assert SetAll(EMPTY, a + b + c) == ec;
    SetAllConcat(EMPTY, a + b + c, d);
    assert SetAll(EMPTY, a + b + c + d) == ed;
    SetAllConcat(EMPTY, a + b + c + d, l);
  }

  /** Decoding an encoded edit gives the edit back. */
  lemma EditRoundTrip(e: Edit)
    requires Encodable(e)
    ensures ParseFields(PutAll(Fields(e))) == Some(Fields(e)) && SetAll(EMPTY, Fields(e)) == e
  {
    FieldsBack(Fields(e), [], []);
    assert PutAll(Fields(e)) + [] == PutAll(Fields(e)) && Fields(e) + [] == Fields(e);
    var s, p, d := Scalars(e), Pointers(e.compactPointers), Deletions(e.deletedFiles);
    SetAllConcat(EMPTY, s + p + d, Additions(e.newFiles));
    SetAllConcat(EMPTY, s + p, d);
    SetAllConcat(EMPTY, s, p);
    hide SetAll, Fits, Scalars, Put, ParseFields;
    ScalarsBack(e);
    PointersBack(SetAll(EMPTY, s), e.compactPointers);
    DeletionsBack(SetAll(EMPTY, s + p), e.deletedFiles);
    AdditionsBack(SetAll(EMPTY, s + p + d), e.newFiles);
  }
}
