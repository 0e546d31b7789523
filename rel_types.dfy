/** The pure half of the `rel` schema builder
    (pkg/sql/schemachanger/rel/schema.go): an abstract stand-in for Go's
    reflect.Type, attribute type checking, field classification into
    fieldFlags, selector resolution, the three generated accessors, and the
    sort-and-group step that builds an entity type's per-attribute index. */
module RelTypes {
  import opened Wrappers

  // ---------------------------------------------------------------------
  // Types

  /** The shape of a Go type as far as the schema builder inspects it.
      Two types are identical exactly when these values are equal; named
      types carry their name, so `type ID uint32` differs from `uint32`. */
  datatype Type =
    | IntType(name: string)                           // any signed integer kind
    | UintType(name: string)                          // any unsigned integer kind
    | StringType(name: string)
    | StructType(name: string, fields: seq<StructField>)
    | PtrType(elem: Type)
    | InterfaceType(name: string)
    | OtherType(name: string)                         // bool, float, slice, map, func, ...

  /** One member of a struct layout: its name, its byte offset in the
      struct, and its declared type. */
  datatype StructField = StructField(name: string, offset: nat, typ: Type)

  /** Whether a concrete type implements an interface type (Go's
      Type.Implements), supplied by the caller. */
  type Implements = (Type, Type) -> bool

  /** The entity types of a schema must be pointers to structs. */
  predicate IsStructPointer(t: Type) {
    t.PtrType? && t.elem.StructType?
  }

  /** checkType: against an interface, the new type must implement it;
      against any other type, the two must be identical. */
  function CheckType(typ: Type, exp: Type, implements: Implements): (ok: bool)
    ensures !exp.InterfaceType? ==> (ok <==> typ == exp)
    ensures exp.InterfaceType? ==> (ok <==> implements(typ, exp))
  {
    match exp
    case InterfaceType(_) => implements(typ, exp)
    case _ => typ == exp
  }

  /** A type always checks against itself unless the expected type is an
      interface that it does not implement. */
  lemma CheckTypeReflexive(t: Type, implements: Implements)
    requires !t.InterfaceType? || implements(t, t)
    ensures CheckType(t, t, implements)
  {
  }

  // ---------------------------------------------------------------------
  // fieldFlags (an int8 bit set)

  type FieldFlags = bv8

  const FlagInt: FieldFlags := 1
  const FlagUint: FieldFlags := 2
  const FlagString: FieldFlags := 4
  const FlagStruct: FieldFlags := 8
  const FlagPointer: FieldFlags := 16

  predicate IsPtr(f: FieldFlags) { f & FlagPointer != 0 }
  predicate IsScalar(f: FieldFlags) { f & (FlagInt | FlagString | FlagUint) != 0 }
  predicate IsStruct(f: FieldFlags) { f & FlagStruct != 0 }
  predicate IsInt(f: FieldFlags) { f & FlagInt != 0 }
  predicate IsUint(f: FieldFlags) { f & FlagUint != 0 }
  predicate IsIntLike(f: FieldFlags) { f & (FlagInt | FlagUint) != 0 }
  predicate IsString(f: FieldFlags) { f & FlagString != 0 }

  /** The type a classification looks at: the pointee of a pointer. */
  function Underlying(t: Type): Type {
    if t.PtrType? then t.elem else t
  }

  /** The field types the schema supports: integers, unsigned integers and
      strings, optionally behind one pointer, and structs behind a pointer. */
  predicate Supported(t: Type) {
    var u := Underlying(t);
    u.IntType? || u.UintType? || u.StringType? || (t.PtrType? && u.StructType?)
  }

  /** makeFieldFlags: classifies a field type. On success exactly one kind
      bit is set, the pointer bit is set exactly for pointers, and the kind
      bit names the kind of the (pointed-to) type. */
  function MakeFieldFlags(t: Type): (r: Option<FieldFlags>)
    ensures r.Some? <==> Supported(t)
    ensures r.Some? ==> (IsPtr(r.value) <==> t.PtrType?)
    ensures r.Some? ==> (IsInt(r.value) <==> Underlying(t).IntType?)
    ensures r.Some? ==> (IsUint(r.value) <==> Underlying(t).UintType?)
    ensures r.Some? ==> (IsString(r.value) <==> Underlying(t).StringType?)
    ensures r.Some? ==> (IsStruct(r.value) <==> Underlying(t).StructType?)
    ensures r.Some? ==> (IsScalar(r.value) <==> !IsStruct(r.value))
    ensures r.Some? ==> (IsIntLike(r.value) <==> IsInt(r.value) || IsUint(r.value))
  {
    var f: FieldFlags := if t.PtrType? then FlagPointer else 0;
    var k := Underlying(t);
    if k.StructType? && IsPtr(f) then Some(f | FlagStruct)
    else if k.StringType? then Some(f | FlagString)
    else if k.IntType? then Some(f | FlagInt)
    else if k.UintType? then Some(f | FlagUint)
    else None
  }

  /** The rejections spelled out: a struct by value, a pointer to a
      pointer, and every other kind fail classification. */
  lemma MakeFieldFlagsRejects(t: Type)
    ensures t.StructType? ==> MakeFieldFlags(t).None?
    ensures t.PtrType? && t.elem.PtrType? ==> MakeFieldFlags(t).None?
    ensures t.InterfaceType? || t.OtherType? ==> MakeFieldFlags(t).None?
  {
  }

  /** The type an attribute is declared with for a field: the pointee for
      a pointer to a scalar, otherwise the field's own type. */
  function DeclaredType(cur: Type, flags: FieldFlags): (typ: Type)
    requires MakeFieldFlags(cur) == Some(flags)
    ensures cur.PtrType? && !Underlying(cur).StructType? ==> typ == cur.elem
    ensures !cur.PtrType? || Underlying(cur).StructType? ==> typ == cur
  {
    if IsPtr(flags) && IsScalar(flags) then cur.elem else cur
  }

  // ---------------------------------------------------------------------
  // Selectors

  /** strings.Split(s, "."): the pieces between the dots, always at least one. */
  function Split(s: string): (parts: seq<string>)
    ensures |parts| >= 1
  {
    if |s| == 0 then [""]
    else
      var rest := Split(s[1..]);
      if s[0] == '.' then [""] + rest else [[s[0]] + rest[0]] + rest[1..]
  }

  /** strings.Join(parts, "."). */
  function Join(parts: seq<string>): string
    requires |parts| >= 1
  {
    if |parts| == 1 then parts[0] else parts[0] + "." + Join(parts[1..])
  }

  /** Splitting on '.' loses nothing: joining the pieces gives the
      selector back, and no piece contains a dot. */
  lemma {:induction false} SplitJoin(s: string)
    ensures Join(Split(s)) == s
    ensures forall k :: 0 <= k < |Split(s)| ==> '.' !in Split(s)[k]
  {
    if |s| > 0 {
      var rest := Split(s[1..]);
      SplitJoin(s[1..]);
      if s[0] == '.' {
        assert Split(s) == [""] + rest;
        assert Split(s)[1..] == rest;
        assert Join(Split(s)) == "" + "." + Join(rest);
      } else {
        var parts := Split(s);
        assert parts[0] == [s[0]] + rest[0];
        assert parts[1..] == rest[1..];
        if |rest| == 1 {
          assert Join(parts) == [s[0]] + rest[0];
        } else {
          assert Join(rest) == rest[0] + "." + Join(rest[1..]);
          assert Join(parts) == [s[0]] + rest[0] + "." + Join(rest[1..]);
        }
        forall k | 0 <= k < |parts| ensures '.' !in parts[k] {
          if k > 0 { assert parts[k] == rest[k]; }
        }
      }
    }
  }

  /** reflect's FieldByName on the current type: the member with that
      name, or nothing (also for a type that is not a struct). */
  function FieldByName(t: Type, n: string): (r: Option<StructField>)
    ensures r.Some? ==> t.StructType? && r.value in t.fields && r.value.name == n
    ensures r.None? ==> !t.StructType? || forall k :: 0 <= k < |t.fields| ==> t.fields[k].name != n
  {
    if t.StructType? then FirstNamed(t.fields, n) else None
  }

  function FirstNamed(fields: seq<StructField>, n: string): (r: Option<StructField>)
    ensures r.Some? ==> r.value in fields && r.value.name == n
    ensures r.None? ==> forall k :: 0 <= k < |fields| ==> fields[k].name != n
  {
    if |fields| == 0 then None
    else if fields[0].name == n then Some(fields[0])
    else FirstNamed(fields[1..], n)
  }

  /** The reference meaning of a selector: walking the names from a struct
      type, each name selects a member of the current type; the offset is
      the sum of the members' offsets and the type is the last member's. */
  function Walk(cur: Type, names: seq<string>): Option<(nat, Type)>
    decreases |names|
  {
    if names == [] then Some((0, cur))
    else
      match FieldByName(cur, names[0])
      case None => None
      case Some(f) =>
        match Walk(f.typ, names[1..])
        case None => None
        case Some((o, t)) => Some((f.offset + o, t))
  }

  /** Walking a longer path continues from where the shorter one stopped:
      offsets add up across segments. */
  lemma {:induction false} WalkAppend(cur: Type, names: seq<string>, n: string)
    ensures Walk(cur, names + [n]) ==
      match Walk(cur, names)
      case None => None
      case Some((o, t)) =>
        match FieldByName(t, n)
        case None => None
        case Some(f) => Some((o + f.offset, f.typ))
  {
    if names != [] {
      assert (names + [n])[1..] == names[1..] + [n];
      match FieldByName(cur, names[0])
      case None =>
      case Some(f) => WalkAppend(f.typ, names[1..], n);
    }
  }

  /** A selector fails exactly when some segment is not a member of the
      type reached by the segments before it. */
  lemma {:induction false} WalkFailsAt(cur: Type, names: seq<string>)
    ensures Walk(cur, names).None? <==>
      exists k :: 0 <= k < |names| && Walk(cur, names[..k]).Some? &&
                  FieldByName(Walk(cur, names[..k]).value.1, names[k]).None?
  {
    if names == [] {
    } else {
      var last := names[|names| - 1];
      var init := names[..|names| - 1];
      assert names == init + [last];
      WalkAppend(cur, init, last);
      WalkFailsAt(cur, init);
      if Walk(cur, init).None? {
        var k :| 0 <= k < |init| && Walk(cur, init[..k]).Some? &&
                 FieldByName(Walk(cur, init[..k]).value.1, init[k]).None?;
        assert init[..k] == names[..k];
      } else if Walk(cur, names).None? {
        assert names[..|names| - 1] == init;
      } else {
        forall k | 0 <= k < |names| && Walk(cur, names[..k]).Some?
          ensures FieldByName(Walk(cur, names[..k]).value.1, names[k]).Some?
        {
          if k < |init| {
            assert init[..k] == names[..k];
          } else {
            assert names[..k] == init;
          }
        }
      }
    }
  }

  /** A selector that fails on a prefix fails whatever follows. */
  lemma {:induction false} WalkNoneExtends(cur: Type, a: seq<string>, b: seq<string>)
    requires Walk(cur, a).None?
    ensures Walk(cur, a + b).None?
  {
    assert (a + b)[0] == a[0];
    assert (a + b)[1..] == a[1..] + b;
    match FieldByName(cur, a[0])
    case None =>
    case Some(f) => WalkNoneExtends(f.typ, a[1..], b);
  }

  /** getOffsetAndTypeFromSelector: follows the dot-separated names from
      the struct the pointer type points to, adding up member offsets; a
      name that is not a member is an error (None). */
  method GetOffsetAndTypeFromSelector(structPointer: Type, selector: string)
    returns (r: Option<(nat, Type)>)
    requires structPointer.PtrType?
    ensures r == Walk(structPointer.elem, Split(selector))
  {
    var names := Split(selector);
    var offset := 0;
    var cur := structPointer.elem;
    var i := 0;
    while i < |names|
      invariant 0 <= i <= |names|
      invariant Walk(structPointer.elem, names[..i]) == Some((offset, cur))
    {
      var sf := FieldByName(cur, names[i]);
      WalkAppend(structPointer.elem, names[..i], names[i]);
      assert names[..i + 1] == names[..i] + [names[i]];
      if sf.None? {
        WalkNoneExtends(structPointer.elem, names[..i + 1], names[i + 1..]);
        assert names[..i + 1] + names[i + 1..] == names;
        return None;
      }
      offset := offset + sf.value.offset;
      cur := sf.value.typ;
      i := i + 1;
    }
    assert names[..i] == names;
    return Some((offset, cur));
  }

  // ---------------------------------------------------------------------
  // Field infos and the generated accessors

  /** fieldInfo: the selector, the attribute's declared type, the
      attribute's ordinal and the flags; offset and cur (the selected
      member's own type) are what the generated closures capture. */
  datatype FieldInfo = FieldInfo(
    path: string, typ: Type, attr: nat, flags: FieldFlags, offset: nat, cur: Type)

  /** A value stored in a scalar field or pointed to by a scalar pointer. */
  datatype Scalar = IntVal(i: int) | UintVal(u: nat) | StrVal(s: string)

  /** The contents of one field of an entity instance. */
  datatype Cell =
    | ScalarCell(v: Scalar)             // an int, uint or string stored in place
    | NilPtr                            // a pointer field holding nil
    | ScalarPtr(addr: nat, v: Scalar)   // a pointer to a scalar stored at addr
    | StructPtr(addr: nat)              // a pointer to a struct at addr

  /** An entity instance the caller owns: its address and its fields by offset. */
  datatype Instance = Instance(addr: nat, cells: map<nat, Cell>)

  /** What an accessor returns as interface{}: nil, a scalar of a given
      type, or a pointer of a given type. */
  datatype Boxed = NilValue | ScalarValue(typ: Type, v: Scalar) | PointerValue(typ: Type, addr: nat)

  const Word: nat := 0x1_0000_0000_0000_0000

  predicate InInt64(i: int) { -0x8000_0000_0000_0000 <= i < 0x8000_0000_0000_0000 }

  predicate ScalarFits(flags: FieldFlags, v: Scalar) {
    if IsInt(flags) then v.IntVal? && InInt64(v.i)
    else if IsUint(flags) then v.UintVal? && v.u < Word
    else v.StrVal?
  }

  /** The instance holds, at the field's offset, a value of the field's
      type; passing anything else to an accessor is undefined in the source. */
  predicate Fits(f: FieldInfo, x: Instance) {
    && MakeFieldFlags(f.cur) == Some(f.flags)
    && f.typ == DeclaredType(f.cur, f.flags)
    && f.offset in x.cells
    && var c := x.cells[f.offset];
    if IsStruct(f.flags) then c.NilPtr? || c.StructPtr?
    else if IsPtr(f.flags) then c.NilPtr? || (c.ScalarPtr? && ScalarFits(f.flags, c.v))
    else c.ScalarCell? && ScalarFits(f.flags, c.v)
  }

  /** The value accessor: nil for a nil pointer, the pointer itself for a
      struct field, otherwise the scalar (through the pointer if there is one). */
  function Value(f: FieldInfo, x: Instance): (r: Boxed)
    requires Fits(f, x)
    ensures r.NilValue? <==> x.cells[f.offset].NilPtr?
    ensures IsStruct(f.flags) && !x.cells[f.offset].NilPtr? ==>
      r == PointerValue(f.cur, x.cells[f.offset].addr)
    ensures IsScalar(f.flags) && !x.cells[f.offset].NilPtr? ==> r == ScalarValue(f.typ, x.cells[f.offset].v)
  {
    var c := x.cells[f.offset];
    if IsPtr(f.flags) && IsStruct(f.flags) then
      if c.NilPtr? then NilValue else PointerValue(f.cur, c.addr)
    else if IsPtr(f.flags) && IsScalar(f.flags) then
      if c.NilPtr? then NilValue else ScalarValue(f.typ, c.v)
    else
      ScalarValue(f.cur, c.v)
  }

  /** uintptr(v) on a 64-bit platform: two's complement modulo 2^64. */
  function ToWord(v: int): (w: nat)
    ensures w < Word
  {
    v % Word
  }

  /** Reads a word back as an int64. */
  function SignedFromWord(w: nat): int
    requires w < Word
  {
    if w < Word / 2 then w else w - Word
  }

  /** The inline encoding of an int64 loses nothing. */
  lemma SignedWordRoundTrip(v: int)
    requires InInt64(v)
    ensures SignedFromWord(ToWord(v)) == v
  {
  }

  /** The inline accessor: for integer kinds the value as a word and true,
      (0, false) for a nil pointer; for strings and structs always (0, false). */
  function Inline(f: FieldInfo, x: Instance): (r: (nat, bool))
    requires Fits(f, x)
    ensures r.1 <==> IsIntLike(f.flags) && !x.cells[f.offset].NilPtr?
    ensures !r.1 ==> r.0 == 0
    ensures r.0 < Word
    ensures r.1 && IsInt(f.flags) ==> SignedFromWord(r.0) == x.cells[f.offset].v.i
    ensures r.1 && IsUint(f.flags) ==> r.0 == x.cells[f.offset].v.u
  {
    var c := x.cells[f.offset];
    if IsPtr(f.flags) && IsInt(f.flags) then
      if c.NilPtr? then (0, false) else (ToWord(c.v.i), true)
    else if IsPtr(f.flags) && IsUint(f.flags) then
      if c.NilPtr? then (0, false) else (ToWord(c.v.u), true)
    else if IsInt(f.flags) then (ToWord(c.v.i), true)
    else if IsUint(f.flags) then (ToWord(c.v.u), true)
    else (0, false)
  }

  /** getComparableType, supplied by the caller. */
  type ComparableType = Type -> Type

  /** The comparable-value accessor. For a struct field and for a pointer
      to a scalar it is the stored pointer (nil stays nil); for a scalar
      stored in place it is a pointer to the field inside the instance. */
  function ComparableValue(f: FieldInfo, x: Instance, comparable: ComparableType): (r: Boxed)
    requires Fits(f, x)
    ensures r.NilValue? <==> x.cells[f.offset].NilPtr?
    ensures IsStruct(f.flags) && !x.cells[f.offset].NilPtr? ==>
      r == PointerValue(f.cur, x.cells[f.offset].addr)
    ensures IsPtr(f.flags) && IsScalar(f.flags) && !x.cells[f.offset].NilPtr? ==>
      r == PointerValue(PtrType(comparable(f.typ)), x.cells[f.offset].addr)
    ensures !IsPtr(f.flags) ==> r == PointerValue(PtrType(comparable(f.typ)), x.addr + f.offset)
  {
    var c := x.cells[f.offset];
    if IsStruct(f.flags) then
      if c.NilPtr? then NilValue else PointerValue(f.cur, c.addr)
    else if IsPtr(f.flags) then
      if c.NilPtr? then NilValue else PointerValue(PtrType(comparable(f.typ)), c.addr)
    else
      PointerValue(PtrType(comparable(f.typ)), x.addr + f.offset)
  }

  /** For a reference field, comparable values are equal exactly when the
      two instances point at the same entity (or both hold nil). */
  lemma ComparableStructIsIdentity(f: FieldInfo, x: Instance, y: Instance, comparable: ComparableType)
    requires Fits(f, x) && Fits(f, y) && IsStruct(f.flags)
    ensures ComparableValue(f, x, comparable) == ComparableValue(f, y, comparable) <==>
            x.cells[f.offset] == y.cells[f.offset]
  {
  }

  /** For a scalar stored in place, the comparable value is the field's
      address: two instances at different addresses never compare equal,
      even when the scalars they hold are equal. */
  lemma ComparableScalarIsAddress(f: FieldInfo, x: Instance, y: Instance, comparable: ComparableType)
    requires Fits(f, x) && Fits(f, y) && !IsPtr(f.flags)
    ensures ComparableValue(f, x, comparable) == ComparableValue(f, y, comparable) <==> x.addr == y.addr
  {
  }

  // ---------------------------------------------------------------------
  // Sorting field infos by attribute and grouping them

  predicate SortedByAttr(s: seq<FieldInfo>) {
    forall p, q :: 0 <= p < q < |s| ==> s[p].attr <= s[q].attr
  }

  /** Inserts f before the first element with a larger ordinal. */
  function InsertByAttr(f: FieldInfo, s: seq<FieldInfo>): (r: seq<FieldInfo>)
    requires SortedByAttr(s)
    ensures SortedByAttr(r)
    ensures multiset(r) == multiset(s) + multiset{f}
  {
    if |s| == 0 || f.attr <= s[0].attr then
      ConsSorted(f, s);
      [f] + s
    else
      var rest := InsertByAttr(f, s[1..]);
      InsertBehindHead(f, s, rest);
      [s[0]] + rest
  }

  /** Inserting f into the tail of s, behind a head with a smaller ordinal,
      keeps the head in front. */
  lemma InsertBehindHead(f: FieldInfo, s: seq<FieldInfo>, rest: seq<FieldInfo>)
    requires |s| > 0 && SortedByAttr(s) && s[0].attr < f.attr
    requires SortedByAttr(rest) && multiset(rest) == multiset(s[1..]) + multiset{f}
    ensures SortedByAttr([s[0]] + rest)
    ensures multiset([s[0]] + rest) == multiset(s) + multiset{f}
  {
    assert s == [s[0]] + s[1..];
    forall k | 0 <= k < |rest| ensures s[0].attr <= rest[k].attr {
      assert rest[k] in multiset(rest);
      assert rest[k] == f || rest[k] in multiset(s[1..]);
    }
    ConsSorted(s[0], rest);
  }

  /** An element no larger than any of a sorted sequence's elements can be
      put in front of it. */
  lemma ConsSorted(x: FieldInfo, s: seq<FieldInfo>)
    requires SortedByAttr(s) && forall k | 0 <= k < |s| :: x.attr <= s[k].attr
    ensures SortedByAttr([x] + s)
  {
    var t := [x] + s;
    forall p, q | 0 <= p < q < |t| ensures t[p].attr <= t[q].attr {
      assert t[q] == s[q - 1];
      if p > 0 { assert t[p] == s[p - 1]; }
    }
  }

  /** sort.Slice(fieldInfos, by attr): the model sorts by insertion; the
      source's sort is not stable, so only sortedness and permutation are
      claimed, not the order within one ordinal. */
  function SortByAttr(s: seq<FieldInfo>): (r: seq<FieldInfo>)
    ensures SortedByAttr(r)
    ensures multiset(r) == multiset(s)
  {
    if |s| == 0 then []
    else
      assert s == [s[0]] + s[1..];
      InsertByAttr(s[0], SortByAttr(s[1..]))
  }

  /** The field infos of one ordinal, in their order in s. */
  function Filter(s: seq<FieldInfo>, o: nat): (r: seq<FieldInfo>)
    ensures forall k :: 0 <= k < |r| ==> r[k].attr == o && r[k] in s
    ensures forall k :: 0 <= k < |s| && s[k].attr == o ==> s[k] in r
  {
    if |s| == 0 then []
    else if s[0].attr == o then [s[0]] + Filter(s[1..], o)
    else Filter(s[1..], o)
  }

  lemma {:induction false} FilterAppend(a: seq<FieldInfo>, b: seq<FieldInfo>, o: nat)
    ensures Filter(a + b, o) == Filter(a, o) + Filter(b, o)
  {
    if |a| == 0 {
      assert a + b == b;
    } else {
      assert (a + b)[0] == a[0];
      assert (a + b)[1..] == a[1..] + b;
      FilterAppend(a[1..], b, o);
      if a[0].attr == o {
        calc {
          Filter(a + b, o);
          [a[0]] + Filter(a[1..] + b, o);
          [a[0]] + (Filter(a[1..], o) + Filter(b, o));
          ([a[0]] + Filter(a[1..], o)) + Filter(b, o);
        }
      } else {
        assert Filter(a + b, o) == Filter(a[1..] + b, o);
      }
    }
  }

  lemma {:induction false} FilterNone(s: seq<FieldInfo>, o: nat)
    requires forall k :: 0 <= k < |s| ==> s[k].attr != o
    ensures Filter(s, o) == []
  {
    if |s| > 0 {
      FilterNone(s[1..], o);
    }
  }

  lemma {:induction false} FilterAll(s: seq<FieldInfo>, o: nat)
    requires forall k :: 0 <= k < |s| ==> s[k].attr == o
    ensures Filter(s, o) == s
  {
    if |s| > 0 {
      FilterAll(s[1..], o);
    }
  }

  function AttrsOf(s: seq<FieldInfo>): set<nat> {
    set k | 0 <= k < |s| :: s[k].attr
  }

  /** The i/j run loop of maybeAddTypeMapping: over field infos sorted by
      ordinal, each maximal run of equal ordinals becomes that ordinal's
      group. Every ordinal that occurs gets a group and the group holds
      exactly the field infos with that ordinal. */
  method GroupByAttr(fields: seq<FieldInfo>) returns (groups: map<nat, seq<FieldInfo>>)
    requires SortedByAttr(fields)
    ensures groups.Keys == AttrsOf(fields)
    ensures forall o | o in groups :: groups[o] == Filter(fields, o)
  {
    groups := map[];
    var i := 0;
    while i < |fields|
      invariant 0 <= i <= |fields|
      invariant 0 < i < |fields| ==> fields[i - 1].attr < fields[i].attr
      invariant groups.Keys == AttrsOf(fields[..i])
      invariant forall o | o in groups :: groups[o] == Filter(fields[..i], o)
    {
      var cur := fields[i].attr;
      var j := i + 1;
      while j < |fields|
        invariant i < j <= |fields|
        invariant forall k :: i <= k < j ==> fields[k].attr == cur
      {
        if fields[j].attr != cur {
          break;
        }
        j := j + 1;
      }
      GroupStep(fields, i, j, groups);
      groups := groups[cur := fields[i..j]];
      i := j;
    }
    assert fields[..i] == fields;
  }

  /** One iteration of the run loop: adding the run fields[i..j] of one
      ordinal keeps the groups equal to the filters of the prefix. */
  lemma GroupStep(fields: seq<FieldInfo>, i: nat, j: nat, groups: map<nat, seq<FieldInfo>>)
    requires SortedByAttr(fields) && i < j <= |fields|
    requires forall k :: i <= k < j ==> fields[k].attr == fields[i].attr
    requires 0 < i ==> fields[i - 1].attr < fields[i].attr
    requires groups.Keys == AttrsOf(fields[..i])
    requires forall o | o in groups :: groups[o] == Filter(fields[..i], o)
    ensures groups[fields[i].attr := fields[i..j]].Keys == AttrsOf(fields[..j])
    ensures forall o | o in groups[fields[i].attr := fields[i..j]] ::
      groups[fields[i].attr := fields[i..j]][o] == Filter(fields[..j], o)
  {
    var cur := fields[i].attr;
    var g := groups[cur := fields[i..j]];
    PrefixBelowRun(fields, i);
    forall o | o in g ensures g[o] == Filter(fields[..j], o) {
      FilterOfRun(fields, i, j, o);
    }
    AttrsOfRun(fields, i, j);
  }

  /** Filtering the prefix extended by a run of one ordinal adds the run
      to that ordinal's filter and nothing to any other's. */
  lemma FilterOfRun(fields: seq<FieldInfo>, i: nat, j: nat, o: nat)
    requires i < j <= |fields|
    requires forall k :: i <= k < j ==> fields[k].attr == fields[i].attr
    requires forall k :: 0 <= k < |fields[..i]| ==> fields[..i][k].attr != fields[i].attr
    ensures o == fields[i].attr ==> Filter(fields[..j], o) == fields[i..j]
    ensures o != fields[i].attr ==> Filter(fields[..j], o) == Filter(fields[..i], o)
  {
    var run := fields[i..j];
    assert fields[..j] == fields[..i] + run;
    FilterAppend(fields[..i], run, o);
    if o == fields[i].attr {
      FilterNone(fields[..i], o);
      FilterAll(run, o);
    } else {
      assert forall k :: 0 <= k < |run| ==> run[k].attr != o;
      FilterNone(run, o);
    }
  }

  lemma PrefixBelowRun(fields: seq<FieldInfo>, i: nat)
    requires SortedByAttr(fields) && i < |fields|
    requires 0 < i ==> fields[i - 1].attr < fields[i].attr
    ensures forall k :: 0 <= k < |fields[..i]| ==> fields[..i][k].attr != fields[i].attr
  {
    forall k | 0 <= k < i ensures fields[..i][k].attr != fields[i].attr {
      assert fields[k].attr <= fields[i - 1].attr;
    }
  }

  lemma AttrsOfRun(fields: seq<FieldInfo>, i: nat, j: nat)
    requires i < j <= |fields|
    requires forall k :: i <= k < j ==> fields[k].attr == fields[i].attr
    ensures AttrsOf(fields[..j]) == AttrsOf(fields[..i]) + {fields[i].attr}
  {
    forall a | a in AttrsOf(fields[..j]) ensures a in AttrsOf(fields[..i]) + {fields[i].attr} {
      var k :| 0 <= k < j && fields[..j][k].attr == a;
      if k < i { assert fields[..i][k] == fields[..j][k]; }
    }
    forall a | a in AttrsOf(fields[..i]) ensures a in AttrsOf(fields[..j]) {
      var k :| 0 <= k < i && fields[..i][k].attr == a;
      assert fields[..j][k] == fields[..i][k];
    }
    assert fields[..j][i] == fields[i];
  }

  /** The groups partition the field infos: each one lies in its own
      ordinal's group, and a group holds nothing else. */
  lemma GroupsCover(fields: seq<FieldInfo>, groups: map<nat, seq<FieldInfo>>)
    requires groups.Keys == AttrsOf(fields)
    requires forall o | o in groups :: groups[o] == Filter(fields, o)
    ensures forall k :: 0 <= k < |fields| ==> fields[k].attr in groups && fields[k] in groups[fields[k].attr]
    ensures forall o, k :: o in groups && 0 <= k < |groups[o]| ==> groups[o][k].attr == o && groups[o][k] in fields
  {
  }
}
