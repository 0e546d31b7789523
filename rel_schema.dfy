/** The stateful half of the `rel` schema builder
    (pkg/sql/schemachanger/rel/schema.go): a Schema object whose attribute
    tables and entity type tables are filled in step by step by
    buildSchema, and whose entity types are finally put in canonical order
    by a sort whose Swap also rewrites each entity type's rank. Panics of
    the source are the Err results here. */
module Rel {
  import opened Wrappers
  import opened RelTypes
  import opened RelOrder

  /** An attribute: the two system attributes and the user's. */
  datatype Attr = SelfAttr | TypeAttr | UserAttr(name: string)

  /** How an attribute prints in error messages. */
  function AttrString(a: Attr): string {
    match a
    case SelfAttr => "Self"
    case TypeAttr => "Type"
    case UserAttr(name) => name
  }

  /** The text of the error for an attribute the schema does not know. */
  function UnknownAttribute(a: Attr, schema: string): string {
    "unknown attribute " + AttrString(a) + " in schema " + schema
  }

  /** The declared types of the Self and Type attributes. */
  const EmptyInterfaceType: Type := InterfaceType("interface {}")
  const ReflectTypeType: Type := InterfaceType("reflect.Type")

  /** The options a schema is built from, once applied. */
  datatype AttrMapping = AttrMapping(a: Attr, selectors: seq<string>)
  datatype EntityMapping = EntityMapping(typ: Type, attrMappings: seq<AttrMapping>)
  datatype AttrTypeDecl = AttrTypeDecl(a: Attr, typ: Type)
  datatype SchemaMappings = SchemaMappings(attrTypes: seq<AttrTypeDecl>, entityMappings: seq<EntityMapping>)

  /** The reasons building a schema panics. */
  datatype BuildError =
    | TooManyAttributes
    | TypeMismatch(a: Attr, typ: Type, exp: Type)
    | NotStructPointer(t: Type)
    | NotAField(structPointer: Type, selector: string)
    | UnsupportedType(selector: string, t: Type, cur: Type)
    | FailedToConstruct(cause: BuildError)

  /** The (attribute, selector) pairs of a list of attribute mappings, in
      the order maybeAddTypeMapping visits them. */
  function Pairs(ms: seq<AttrMapping>): seq<(Attr, string)>
  {
    if |ms| == 0 then [] else Pairs(ms[..|ms| - 1]) + SelectorPairs(ms[|ms| - 1])
  }

  function SelectorPairs(m: AttrMapping): seq<(Attr, string)>
  {
    seq(|m.selectors|, k requires 0 <= k < |m.selectors| => (m.a, m.selectors[k]))
  }

  lemma SelectorPairsStep(m: AttrMapping, j: nat)
    requires j < |m.selectors|
    ensures SelectorPairs(m)[j] == (m.a, m.selectors[j])
    ensures SelectorPairs(m)[..j + 1] == SelectorPairs(m)[..j] + [(m.a, m.selectors[j])]
  {
  }

  /** The field resolves from the struct pointer t: the selector walks to
      the recorded member and offset, and the flags and declared type are
      the ones that member's type gets. */
  ghost predicate FieldResolves(f: FieldInfo, t: Type) {
    && t.PtrType?
    && Walk(t.elem, Split(f.path)) == Some((f.offset, f.cur))
    && MakeFieldFlags(f.cur) == Some(f.flags)
    && f.typ == DeclaredType(f.cur, f.flags)
  }

  /** The field was made for selector sel of attribute a on type t, and its
      ordinal names a, whose declared type accepts the field's type. */
  ghost predicate FieldFor(f: FieldInfo, t: Type, a: Attr, sel: string,
                           attrs: seq<Attr>, attrTypes: seq<Type>, implements: Implements) {
    && f.path == sel
    && FieldResolves(f, t)
    && f.attr < |attrs| && f.attr < |attrTypes|
    && attrs[f.attr] == a
    && (attrTypes[f.attr] == f.typ || CheckType(f.typ, attrTypes[f.attr], implements))
  }

  /** fs holds, in order, one field for each (attribute, selector) pair. */
  ghost predicate Produces(fs: seq<FieldInfo>, t: Type, ps: seq<(Attr, string)>,
                           attrs: seq<Attr>, attrTypes: seq<Type>, implements: Implements) {
    && |fs| == |ps|
    && forall k | 0 <= k < |fs| :: FieldFor(fs[k], t, ps[k].0, ps[k].1, attrs, attrTypes, implements)
  }

  /** Registering more attributes keeps the fields already made valid. */
  lemma ProducesExtends(fs: seq<FieldInfo>, t: Type, ps: seq<(Attr, string)>,
                        attrs: seq<Attr>, attrTypes: seq<Type>,
                        attrs': seq<Attr>, attrTypes': seq<Type>, implements: Implements)
    requires Produces(fs, t, ps, attrs, attrTypes, implements)
    requires attrs <= attrs' && attrTypes <= attrTypes'
    ensures Produces(fs, t, ps, attrs', attrTypes', implements)
  {
    forall k | 0 <= k < |fs|
      ensures FieldFor(fs[k], t, ps[k].0, ps[k].1, attrs', attrTypes', implements)
    {
      var o := fs[k].attr;
      assert attrs'[o] == attrs[o] && attrTypes'[o] == attrTypes[o];
    }
  }

  /** Sorting the produced fields by ordinal keeps each one's resolution. */
  lemma SortedFieldsResolve(fs: seq<FieldInfo>, t: Type, ps: seq<(Attr, string)>,
                            attrs: seq<Attr>, attrTypes: seq<Type>, implements: Implements)
    requires Produces(fs, t, ps, attrs, attrTypes, implements)
    ensures forall k | 0 <= k < |SortByAttr(fs)| ::
      FieldResolves(SortByAttr(fs)[k], t) && SortByAttr(fs)[k].attr < |attrs|
  {
    var s := SortByAttr(fs);
    forall k | 0 <= k < |s| ensures FieldResolves(s[k], t) && s[k].attr < |attrs| {
      assert s[k] in multiset(fs);
      var m :| 0 <= m < |fs| && fs[m] == s[k];
      assert FieldFor(fs[m], t, ps[m].0, ps[m].1, attrs, attrTypes, implements);
    }
  }

  /** Two runs of fields concatenate to the fields of the concatenated pairs. */
  lemma ProducesAppend(fs1: seq<FieldInfo>, fs2: seq<FieldInfo>, t: Type,
                       ps1: seq<(Attr, string)>, ps2: seq<(Attr, string)>,
                       attrs: seq<Attr>, attrTypes: seq<Type>, implements: Implements)
    requires Produces(fs1, t, ps1, attrs, attrTypes, implements)
    requires Produces(fs2, t, ps2, attrs, attrTypes, implements)
    ensures Produces(fs1 + fs2, t, ps1 + ps2, attrs, attrTypes, implements)
  {
    forall k | 0 <= k < |fs1 + fs2|
      ensures FieldFor((fs1 + fs2)[k], t, (ps1 + ps2)[k].0, (ps1 + ps2)[k].1, attrs, attrTypes, implements)
    {
      if k >= |fs1| {
        assert (fs1 + fs2)[k] == fs2[k - |fs1|] && (ps1 + ps2)[k] == ps2[k - |fs1|];
      }
    }
  }

  /** fields are the fields made for the (attribute, selector) pairs of
      mappings on t, in some order, sorted by ordinal. */
  ghost predicate MadeFrom(fields: seq<FieldInfo>, t: Type, mappings: seq<AttrMapping>,
                           attrs: seq<Attr>, attrTypes: seq<Type>, implements: Implements) {
    exists produced :: Produces(produced, t, Pairs(mappings), attrs, attrTypes, implements) &&
      fields == SortByAttr(produced)
  }

  /** Registering more attributes keeps an entity type's fields made from
      its mappings. */
  lemma MadeFromExtends(fields: seq<FieldInfo>, t: Type, mappings: seq<AttrMapping>,
                        attrs: seq<Attr>, attrTypes: seq<Type>,
                        attrs': seq<Attr>, attrTypes': seq<Type>, implements: Implements)
    requires MadeFrom(fields, t, mappings, attrs, attrTypes, implements)
    requires attrs <= attrs' && attrTypes <= attrTypes'
    ensures MadeFrom(fields, t, mappings, attrs', attrTypes', implements)
  {
    var produced :| Produces(produced, t, Pairs(mappings), attrs, attrTypes, implements) &&
      fields == SortByAttr(produced);
    ProducesExtends(produced, t, Pairs(mappings), attrs, attrTypes, attrs', attrTypes', implements);
  }

  /** The pairs of a prefix of the mappings are a prefix of the pairs. */
  lemma {:induction false} PairsPrefix(ms: seq<AttrMapping>, i: nat)
    requires i <= |ms|
    ensures Pairs(ms[..i]) <= Pairs(ms)
    decreases |ms| - i
  {
    if i == |ms| {
      assert ms[..i] == ms;
    } else {
      PairsPrefix(ms, i + 1);
      assert ms[..i + 1][..i] == ms[..i];
      assert Pairs(ms[..i + 1]) == Pairs(ms[..i]) + SelectorPairs(ms[i]);
    }
  }
  /** The pair at position k of mapping i sits, among all the pairs, right
      after the pairs of the mappings before i and its own first k. */
  lemma PairsSplit(ms: seq<AttrMapping>, i: nat, k: nat, n: nat)
    requires i < |ms| && k < |SelectorPairs(ms[i])| && n == |Pairs(ms[..i])| + k
    ensures n < |Pairs(ms)|
    ensures Pairs(ms)[..n] == Pairs(ms[..i]) + SelectorPairs(ms[i])[..k]
    ensures Pairs(ms)[n] == SelectorPairs(ms[i])[k]
  {
    var sp := SelectorPairs(ms[i]);
    PairsPrefix(ms, i + 1);
    assert ms[..i + 1][..i] == ms[..i];
    assert Pairs(ms[..i + 1]) == Pairs(ms[..i]) + sp;
    var ps := Pairs(ms);
    assert Pairs(ms[..i + 1]) <= ps;
    assert ps[..n] == Pairs(ms[..i + 1])[..n];
  }


  /** Every attribute mapped by a mapping with at least one selector is
      registered. */
  ghost predicate MappedAttrsIn(ms: seq<AttrMapping>, attrs: seq<Attr>) {
    forall am | am in ms && am.selectors != [] :: am.a in attrs
  }

  lemma MappedAttrsStep(ms: seq<AttrMapping>, i: nat, attrs: seq<Attr>, attrs': seq<Attr>)
    requires i < |ms| && MappedAttrsIn(ms[..i], attrs) && attrs <= attrs'
    requires ms[i].selectors != [] ==> ms[i].a in attrs'
    ensures MappedAttrsIn(ms[..i + 1], attrs')
  {
    forall am | am in ms[..i + 1] && am.selectors != [] ensures am.a in attrs' {
      if am != ms[i] {
        assert am in ms[..i];
        var k :| 0 <= k < |attrs| && attrs[k] == am.a;
        assert attrs'[k] == am.a;
      }
    }
  }

  /** The entity types the mappings name. */
  ghost function MappedTypes(ems: seq<EntityMapping>): set<Type> {
    if |ems| == 0 then {} else MappedTypes(ems[..|ems| - 1]) + {ems[|ems| - 1].typ}
  }

  /** MappedTypes holds exactly the types of the mappings. */
  lemma {:induction false} MappedTypesAreTypes(ems: seq<EntityMapping>, t: Type)
    ensures t in MappedTypes(ems) <==> exists em :: em in ems && em.typ == t
  {
    if |ems| > 0 {
      var init := ems[..|ems| - 1];
      MappedTypesAreTypes(init, t);
      assert ems == init + [ems[|ems| - 1]];
      if t in MappedTypes(ems) && t != ems[|ems| - 1].typ {
        var em :| em in init && em.typ == t;
        assert em in ems;
      }
      if t !in MappedTypes(ems) {
        forall em | em in ems ensures em.typ != t {
          if em != ems[|ems| - 1] {
            assert em in init;
          }
        }
      }
    }
  }

  /** Every attribute an entity mapping maps through a selector is registered. */
  ghost predicate EntityAttrsIn(ems: seq<EntityMapping>, attrs: seq<Attr>) {
    forall em {:trigger MappedAttrsIn(em.attrMappings, attrs)} | em in ems :: MappedAttrsIn(em.attrMappings, attrs)
  }

  lemma MappedAttrsGrow(ms: seq<AttrMapping>, attrs: seq<Attr>, attrs': seq<Attr>)
    requires MappedAttrsIn(ms, attrs) && attrs <= attrs'
    ensures MappedAttrsIn(ms, attrs')
  {
    forall am | am in ms && am.selectors != [] ensures am.a in attrs' {
      var k :| 0 <= k < |attrs| && attrs[k] == am.a;
      assert attrs'[k] == am.a;
    }
  }

  lemma EntityAttrsGrow(ems: seq<EntityMapping>, attrs: seq<Attr>, attrs': seq<Attr>)
    requires EntityAttrsIn(ems, attrs) && attrs <= attrs'
    ensures EntityAttrsIn(ems, attrs')
  {
    forall em | em in ems ensures MappedAttrsIn(em.attrMappings, attrs') {
      MappedAttrsGrow(em.attrMappings, attrs, attrs');
    }
  }

  /** A prefix one longer adds the next element. */
  lemma PrefixStep<T>(s: seq<T>, i: nat)
    requires i < |s|
    ensures s[..i + 1] == s[..i] + [s[i]]
    ensures s == s[..i] + ([s[i]] + s[i + 1..])
  {
    assert s == s[..i] + s[i..];
  }

  /** The prefix as long as the sequence is the sequence. */
  lemma NamesKept(ds: seq<AttrTypeDecl>, i: nat, attrs0: seq<Attr>, attrs: seq<Attr>)
    requires i < |ds| && attrs0 <= attrs && ds[i].a in attrs
    requires forall k | 0 <= k < i :: ds[k].a in attrs0
    ensures forall k | 0 <= k < i + 1 :: ds[k].a in attrs
  {
    forall k | 0 <= k < i + 1 ensures ds[k].a in attrs {
      if k < i {
        PrefixElements(attrs0, attrs);
      }
    }
  }

  lemma PrefixWhole<T>(s: seq<T>)
    ensures s[..|s|] == s
  {
  }

  /** A prefix's elements are elements of the whole. */
  lemma PrefixElements<T>(a: seq<T>, b: seq<T>)
    requires a <= b
    ensures forall x | x in a :: x in b
  {
    forall x | x in a ensures x in b {
      var k :| 0 <= k < |a| && a[k] == x;
      assert b[k] == x;
    }
  }

  /** Processing one more entity mapping extends both facts to it. */
  lemma EntityStep(ems: seq<EntityMapping>, i: nat, attrs: seq<Attr>, attrs': seq<Attr>)
    requires i < |ems| && EntityAttrsIn(ems[..i], attrs) && attrs <= attrs'
    requires MappedAttrsIn(ems[i].attrMappings, attrs')
    ensures EntityAttrsIn(ems[..i + 1], attrs')
    ensures MappedTypes(ems[..i + 1]) == MappedTypes(ems[..i]) + {ems[i].typ}
  {
    assert ems[..i + 1] == ems[..i] + [ems[i]];
    assert ems[..i + 1][..i] == ems[..i];
    forall em | em in ems[..i + 1] ensures MappedAttrsIn(em.attrMappings, attrs') {
      if em != ems[i] {
        assert em in ems[..i];
        MappedAttrsGrow(em.attrMappings, attrs, attrs');
      }
    }
  }

  // ---------------------------------------------------------------------
  // The attribute table as a function of the declarations registered

  /** The position of the first occurrence of a in s. */
  function IndexOf(s: seq<Attr>, a: Attr): (k: nat)
    requires a in s
    ensures k < |s| && s[k] == a && a !in s[..k]
  {
    if s[0] == a then 0
    else
      var k := IndexOf(s[1..], a);
      assert s[..k + 1] == [s[0]] + s[1..][..k];
      k + 1
  }

  /** A longer table keeps every first occurrence where it was. */
  lemma IndexOfPrefix(s: seq<Attr>, s': seq<Attr>, a: Attr)
    requires a in s && s <= s'
    ensures a in s' && IndexOf(s', a) == IndexOf(s, a)
  {
    var k := IndexOf(s, a);
    assert s'[k] == a;
    var k' := IndexOf(s', a);
    assert s'[..k'] <= s;
  }

  /** The attribute table, the attributes and their declared types by
      ordinal, after maybeAddAttribute registers the declarations ds in
      order into attrs and attrTypes with room for max attributes: a known
      attribute keeps its ordinal provided its declared type accepts the
      new one, a new attribute takes the next ordinal; the first
      declaration refused ends the registration with its error. */
  ghost function Register(attrs: seq<Attr>, attrTypes: seq<Type>, ds: seq<AttrTypeDecl>, max: nat,
                          implements: Implements): (r: Result<(seq<Attr>, seq<Type>), BuildError>)
    requires |attrs| == |attrTypes|
    ensures r.Ok? ==> |r.value.0| == |r.value.1|
    decreases |ds|
  {
    if ds == [] then Ok((attrs, attrTypes))
    else if ds[0].a in attrs then
      var prev := attrTypes[IndexOf(attrs, ds[0].a)];
      if CheckType(ds[0].typ, prev, implements) then Register(attrs, attrTypes, ds[1..], max, implements)
      else Err(TypeMismatch(ds[0].a, ds[0].typ, prev))
    else if |attrs| < max then Register(attrs + [ds[0].a], attrTypes + [ds[0].typ], ds[1..], max, implements)
    else Err(TooManyAttributes)
  }

  /** Registering ds1 + ds2 registers ds1, then ds2 in the table ds1
      leaves; a failure in ds1 is the failure of the whole. */
  lemma {:induction false} RegisterAppend(attrs: seq<Attr>, attrTypes: seq<Type>, ds1: seq<AttrTypeDecl>,
                                          ds2: seq<AttrTypeDecl>, max: nat, implements: Implements)
    requires |attrs| == |attrTypes|
    ensures Register(attrs, attrTypes, ds1 + ds2, max, implements) ==
      match Register(attrs, attrTypes, ds1, max, implements)
      case Ok(table) => Register(table.0, table.1, ds2, max, implements)
      case Err(e) => Err(e)
    decreases |ds1|
  {
    if ds1 == [] {
      assert ds1 + ds2 == ds2;
    } else {
      assert (ds1 + ds2)[0] == ds1[0];
      assert (ds1 + ds2)[1..] == ds1[1..] + ds2;
      var d := ds1[0];
      if d.a in attrs {
        RegisterAppend(attrs, attrTypes, ds1[1..], ds2, max, implements);
      } else if |attrs| < max {
        RegisterAppend(attrs + [d.a], attrTypes + [d.typ], ds1[1..], ds2, max, implements);
      }
    }
  }

  /** Two registrations that succeed one after the other are one. */
  lemma RegisterThen(attrs0: seq<Attr>, attrTypes0: seq<Type>, ds1: seq<AttrTypeDecl>,
                     attrs1: seq<Attr>, attrTypes1: seq<Type>, ds2: seq<AttrTypeDecl>,
                     attrs2: seq<Attr>, attrTypes2: seq<Type>, max: nat, implements: Implements)
    requires |attrs0| == |attrTypes0| && |attrs1| == |attrTypes1|
    requires Register(attrs0, attrTypes0, ds1, max, implements) == Ok((attrs1, attrTypes1))
    requires Register(attrs1, attrTypes1, ds2, max, implements) == Ok((attrs2, attrTypes2))
    ensures Register(attrs0, attrTypes0, ds1 + ds2, max, implements) == Ok((attrs2, attrTypes2))
  {
    RegisterAppend(attrs0, attrTypes0, ds1, ds2, max, implements);
  }

  /** Registering one more declaration after ds[..i] registers ds[..i + 1]. */
  lemma RegisterPrefixThen(attrs0: seq<Attr>, attrTypes0: seq<Type>, ds: seq<AttrTypeDecl>, i: nat,
                           attrs1: seq<Attr>, attrTypes1: seq<Type>, attrs2: seq<Attr>, attrTypes2: seq<Type>,
                           max: nat, implements: Implements)
    requires i < |ds| && |attrs0| == |attrTypes0| && |attrs1| == |attrTypes1|
    requires Register(attrs0, attrTypes0, ds[..i], max, implements) == Ok((attrs1, attrTypes1))
    requires Register(attrs1, attrTypes1, [ds[i]], max, implements) == Ok((attrs2, attrTypes2))
    ensures Register(attrs0, attrTypes0, ds[..i + 1], max, implements) == Ok((attrs2, attrTypes2))
  {
    PrefixStep(ds, i);
    RegisterThen(attrs0, attrTypes0, ds[..i], attrs1, attrTypes1, [ds[i]], attrs2, attrTypes2, max, implements);
  }

  /** When ds[i] is refused after ds[..i] registered, registering ds
      fails with its error. */
  lemma RegisterPrefixFails(attrs0: seq<Attr>, attrTypes0: seq<Type>, ds: seq<AttrTypeDecl>, i: nat,
                            attrs1: seq<Attr>, attrTypes1: seq<Type>, e: BuildError, max: nat, implements: Implements)
    requires i < |ds| && |attrs0| == |attrTypes0| && |attrs1| == |attrTypes1|
    requires Register(attrs0, attrTypes0, ds[..i], max, implements) == Ok((attrs1, attrTypes1))
    requires Register(attrs1, attrTypes1, [ds[i]], max, implements) == Err(e)
    ensures Register(attrs0, attrTypes0, ds, max, implements) == Err(e)
  {
    PrefixStep(ds, i);
    RegisterAppend(attrs1, attrTypes1, [ds[i]], ds[i + 1..], max, implements);
    RegisterAppend(attrs0, attrTypes0, ds[..i], [ds[i]] + ds[i + 1..], max, implements);
  }

  /** The attributes the declarations ds name, in order. */
  function Names(ds: seq<AttrTypeDecl>): (names: seq<Attr>)
    ensures |names| == |ds| && forall k | 0 <= k < |ds| :: names[k] == ds[k].a
  {
    seq(|ds|, k requires 0 <= k < |ds| => ds[k].a)
  }

  /** The attributes the declarations ds name that known does not hold,
      each once, in the order of their first declaration. */
  ghost function NewAttrs(known: seq<Attr>, ds: seq<AttrTypeDecl>): seq<Attr>
  {
    if |ds| == 0 then []
    else
      var init, a := ds[..|ds| - 1], ds[|ds| - 1].a;
      NewAttrs(known, init) + (if a in known || a in Names(init) then [] else [a])
  }

  /** NewAttrs holds exactly the declared attributes that known does not. */
  lemma {:induction false} NewAttrsMembers(known: seq<Attr>, ds: seq<AttrTypeDecl>, x: Attr)
    ensures x in NewAttrs(known, ds) <==> x !in known && x in Names(ds)
  {
    if |ds| > 0 {
      var init := ds[..|ds| - 1];
      NewAttrsMembers(known, init, x);
      assert Names(ds) == Names(init) + [ds[|ds| - 1].a];
    }
  }

  lemma InitOfAppend<T>(s1: seq<T>, s2: seq<T>)
    requires |s2| > 0
    ensures (s1 + s2)[..|s1 + s2| - 1] == s1 + s2[..|s2| - 1]
    ensures (s1 + s2)[|s1 + s2| - 1] == s2[|s2| - 1]
  { }

  lemma NamesAppend(ds1: seq<AttrTypeDecl>, ds2: seq<AttrTypeDecl>)
    ensures Names(ds1 + ds2) == Names(ds1) + Names(ds2)
  { }

  /** The new attributes of ds1 + ds2 are those of ds1, then those of ds2
      that neither known nor ds1 holds. */
  lemma {:induction false} NewAttrsAppend(known: seq<Attr>, ds1: seq<AttrTypeDecl>, ds2: seq<AttrTypeDecl>)
    ensures NewAttrs(known, ds1 + ds2) == NewAttrs(known, ds1) + NewAttrs(known + NewAttrs(known, ds1), ds2)
    decreases |ds2|
  {
    if |ds2| == 0 {
      assert ds1 + ds2 == ds1;
    } else {
      var init, a := ds2[..|ds2| - 1], ds2[|ds2| - 1].a;
      NewAttrsAppend(known, ds1, init);
      InitOfAppend(ds1, ds2);
      NamesAppend(ds1, init);
      NewAttrsMembers(known, ds1, a);
    }
  }

  /** The table registered d.a with d's own type or with a type that d's
      type checks against. */
  ghost predicate Declares(attrs: seq<Attr>, attrTypes: seq<Type>, d: AttrTypeDecl, implements: Implements)
    requires |attrs| == |attrTypes|
  {
    && d.a in attrs
    && var exp := attrTypes[IndexOf(attrs, d.a)];
       exp == d.typ || CheckType(d.typ, exp, implements)
  }

  /** A registration only appends to the table. */
  lemma {:induction false} RegisterGrows(attrs: seq<Attr>, attrTypes: seq<Type>, ds: seq<AttrTypeDecl>, max: nat,
                                         implements: Implements)
    requires |attrs| == |attrTypes| && Register(attrs, attrTypes, ds, max, implements).Ok?
    ensures attrs <= Register(attrs, attrTypes, ds, max, implements).value.0
    ensures attrTypes <= Register(attrs, attrTypes, ds, max, implements).value.1
    decreases |ds|
  {
    if ds != [] {
      var d := ds[0];
      if d.a in attrs {
        RegisterGrows(attrs, attrTypes, ds[1..], max, implements);
      } else {
        RegisterGrows(attrs + [d.a], attrTypes + [d.typ], ds[1..], max, implements);
      }
    }
  }

  /** A successful registration leaves every declaration registered with
      a type its own type checks against (or with its own type), and each
      new attribute with the type of its first declaration. */
  lemma {:induction false} RegisterDeclares(attrs: seq<Attr>, attrTypes: seq<Type>, ds: seq<AttrTypeDecl>, max: nat,
                                            implements: Implements)
    requires |attrs| == |attrTypes| && Register(attrs, attrTypes, ds, max, implements).Ok?
    ensures var table := Register(attrs, attrTypes, ds, max, implements).value;
      forall k | 0 <= k < |ds| :: Declares(table.0, table.1, ds[k], implements)
    ensures var table := Register(attrs, attrTypes, ds, max, implements).value;
      forall k | 0 <= k < |ds| && ds[k].a !in attrs && ds[k].a !in Names(ds[..k]) ::
        table.1[IndexOf(table.0, ds[k].a)] == ds[k].typ
    decreases |ds|
  {
    if ds != [] {
      var table := Register(attrs, attrTypes, ds, max, implements).value;
      var d := ds[0];
      var attrs1 := if d.a in attrs then attrs else attrs + [d.a];
      var attrTypes1 := if d.a in attrs then attrTypes else attrTypes + [d.typ];
      assert Register(attrs1, attrTypes1, ds[1..], max, implements).value == table;
      RegisterDeclares(attrs1, attrTypes1, ds[1..], max, implements);
      RegisterGrows(attrs1, attrTypes1, ds[1..], max, implements);
      IndexOfPrefix(attrs1, table.0, d.a);
      if d.a !in attrs {
        assert attrs1[|attrs|] == d.a && attrs1[..|attrs|] == attrs;
        assert attrTypes1[|attrs|] == d.typ;
      }
      assert Declares(table.0, table.1, ds[0], implements);
      forall k | 0 <= k < |ds| && ds[k].a !in attrs && ds[k].a !in Names(ds[..k])
        ensures table.1[IndexOf(table.0, ds[k].a)] == ds[k].typ
      {
        if k > 0 {
          assert ds[..k][0] == d;
          assert ds[1..][k - 1] == ds[k];
          assert Names(ds[1..][..k - 1]) == Names(ds[..k])[1..];
        }
      }
      forall k | 0 <= k < |ds| ensures Declares(table.0, table.1, ds[k], implements) {
        if k > 0 {
          assert ds[1..][k - 1] == ds[k];
        }
      }
    }
  }

  /** A successful registration registers every attribute it declares. */
  lemma RegisterNames(attrs0: seq<Attr>, attrTypes0: seq<Type>, ds: seq<AttrTypeDecl>, attrs: seq<Attr>,
                      attrTypes: seq<Type>, max: nat, implements: Implements)
    requires |attrs0| == |attrTypes0| && Register(attrs0, attrTypes0, ds, max, implements) == Ok((attrs, attrTypes))
    ensures forall k | 0 <= k < |ds| :: ds[k].a in attrs
  {
    RegisterDeclares(attrs0, attrTypes0, ds, max, implements);
    forall k | 0 <= k < |ds| ensures ds[k].a in attrs {
      assert Declares(attrs, attrTypes, ds[k], implements);
    }
  }

  /** A successful registration appends exactly the new attributes, in
      the order of their first declaration. */
  lemma {:induction false} RegisterTable(attrs: seq<Attr>, attrTypes: seq<Type>, ds: seq<AttrTypeDecl>, max: nat,
                                         implements: Implements)
    requires |attrs| == |attrTypes| && Register(attrs, attrTypes, ds, max, implements).Ok?
    ensures Register(attrs, attrTypes, ds, max, implements).value.0 == attrs + NewAttrs(attrs, ds)
    decreases |ds|
  {
    if |ds| > 0 {
      var init, d := ds[..|ds| - 1], ds[|ds| - 1];
      assert ds == init + [d];
      RegisterAppend(attrs, attrTypes, init, [d], max, implements);
      RegisterTable(attrs, attrTypes, init, max, implements);
      var table := Register(attrs, attrTypes, init, max, implements).value;
      NewAttrsMembers(attrs, init, d.a);
      assert [d][1..] == [];
    }
  }

  /** A failed registration fails at one declaration, every declaration
      before it having registered. */
  lemma {:induction false} RegisterStops(attrs: seq<Attr>, attrTypes: seq<Type>, ds: seq<AttrTypeDecl>, max: nat,
                                         implements: Implements)
    requires |attrs| == |attrTypes| && Register(attrs, attrTypes, ds, max, implements).Err?
    ensures exists k | 0 <= k < |ds| ::
      && Register(attrs, attrTypes, ds[..k], max, implements).Ok?
      && Register(attrs, attrTypes, ds[..k + 1], max, implements) == Register(attrs, attrTypes, ds, max, implements)
    decreases |ds|
  {
    var d := ds[0];
    assert ds[..1][1..] == [] && ds[..1][0] == d;
    var known := d.a in attrs;
    if (known && CheckType(d.typ, attrTypes[IndexOf(attrs, d.a)], implements)) || (!known && |attrs| < max) {
      var attrs1 := if known then attrs else attrs + [d.a];
      var attrTypes1 := if known then attrTypes else attrTypes + [d.typ];
      RegisterStops(attrs1, attrTypes1, ds[1..], max, implements);
      var k :| 0 <= k < |ds[1..]|
        && Register(attrs1, attrTypes1, ds[1..][..k], max, implements).Ok?
        && Register(attrs1, attrTypes1, ds[1..][..k + 1], max, implements) == Register(attrs1, attrTypes1, ds[1..], max, implements);
      assert ds[..k + 1][0] == d && ds[..k + 1][1..] == ds[1..][..k];
      assert ds[..k + 2][0] == d && ds[..k + 2][1..] == ds[1..][..k + 1];
      assert Register(attrs, attrTypes, ds[..k + 1], max, implements).Ok?;
    } else {
      assert ds[..0] == [];
    }
  }

  /** The declared type of the member sel names in the struct t points
      to, when sel names a member of a supported type. */
  ghost function SelectedType(t: Type, sel: string): Option<Type> {
    if !t.PtrType? then None
    else
      match Walk(t.elem, Split(sel))
      case None => None
      case Some((_, cur)) =>
        match MakeFieldFlags(cur)
        case None => None
        case Some(flags) => Some(DeclaredType(cur, flags))
  }

  /** The declarations the (attribute, selector) pairs of t make, in order:
      each pair declares its attribute with the selected member's type. */
  ghost function PairDecls(t: Type, ps: seq<(Attr, string)>): seq<AttrTypeDecl> {
    if |ps| == 0 then []
    else
      var p := ps[|ps| - 1];
      PairDecls(t, ps[..|ps| - 1]) + match SelectedType(t, p.1) case None => [] case Some(typ) => [AttrTypeDecl(p.0, typ)]
  }

  /** Registering the declarations of the first j pairs, then those of
      pair j, registers the declarations of the first j + 1 pairs. */
  lemma PairDeclsThen(t: Type, ps: seq<(Attr, string)>, j: nat, attrs0: seq<Attr>, attrTypes0: seq<Type>,
                      attrs1: seq<Attr>, attrTypes1: seq<Type>, attrs2: seq<Attr>, attrTypes2: seq<Type>,
                      max: nat, implements: Implements)
    requires j < |ps| && |attrs0| == |attrTypes0| && |attrs1| == |attrTypes1|
    requires Register(attrs0, attrTypes0, PairDecls(t, ps[..j]), max, implements) == Ok((attrs1, attrTypes1))
    requires Register(attrs1, attrTypes1, PairDecls(t, [ps[j]]), max, implements) == Ok((attrs2, attrTypes2))
    ensures Register(attrs0, attrTypes0, PairDecls(t, ps[..j + 1]), max, implements) == Ok((attrs2, attrTypes2))
  {
    RegisterThen(attrs0, attrTypes0, PairDecls(t, ps[..j]), attrs1, attrTypes1, PairDecls(t, [ps[j]]),
                 attrs2, attrTypes2, max, implements);
    PrefixStep(ps, j);
    PairDeclsAppend(t, ps[..j], [ps[j]]);
  }

  lemma {:induction false} PairDeclsAppend(t: Type, ps1: seq<(Attr, string)>, ps2: seq<(Attr, string)>)
    ensures PairDecls(t, ps1 + ps2) == PairDecls(t, ps1) + PairDecls(t, ps2)
    decreases |ps2|
  {
    if |ps2| == 0 {
      assert ps1 + ps2 == ps1;
    } else {
      var init := ps2[..|ps2| - 1];
      PairDeclsAppend(t, ps1, init);
      assert (ps1 + ps2)[..|ps1 + ps2| - 1] == ps1 + init;
    }
  }

  /** One more attribute mapping adds its selectors' declarations. */
  lemma PairDeclsStep(t: Type, ms: seq<AttrMapping>, i: nat)
    requires i < |ms|
    ensures PairDecls(t, Pairs(ms[..i + 1])) == PairDecls(t, Pairs(ms[..i])) + PairDecls(t, SelectorPairs(ms[i]))
  {
    assert ms[..i + 1][..i] == ms[..i];
    PairDeclsAppend(t, Pairs(ms[..i]), SelectorPairs(ms[i]));
  }

  /** The declarations the entity mappings make, mapping by mapping. */
  ghost function EntityDecls(ems: seq<EntityMapping>): seq<AttrTypeDecl> {
    if |ems| == 0 then []
    else
      var em := ems[|ems| - 1];
      EntityDecls(ems[..|ems| - 1]) + PairDecls(em.typ, Pairs(em.attrMappings))
  }

  lemma EntityDeclsStep(ems: seq<EntityMapping>, i: nat)
    requires i < |ems|
    ensures EntityDecls(ems[..i + 1]) == EntityDecls(ems[..i]) + PairDecls(ems[i].typ, Pairs(ems[i].attrMappings))
  {
    assert ems[..i + 1][..i] == ems[..i];
  }

    /** What mapping i adds, made from it and registered after the mappings
      before it, extends what those mappings made. */
  lemma MappingAdded(es: seq<EntityTypeSchema>, e: EntityTypeSchema, ems: seq<EntityMapping>, i: nat,
                     attrs0: seq<Attr>, attrTypes0: seq<Type>, attrs1: seq<Attr>, attrTypes1: seq<Type>,
                     attrs2: seq<Attr>, attrTypes2: seq<Type>, max: nat, implements: Implements)
    requires i < |ems| && |attrs0| == |attrTypes0| && |attrs1| == |attrTypes1|
    requires attrs1 <= attrs2 && attrTypes1 <= attrTypes2
    requires Register(attrs0, attrTypes0, EntityDecls(ems[..i]), max, implements) == Ok((attrs1, attrTypes1))
    requires Register(attrs1, attrTypes1, PairDecls(ems[i].typ, Pairs(ems[i].attrMappings)), max, implements) ==
      Ok((attrs2, attrTypes2))
    requires EntityAttrsIn(ems[..i], attrs1) && MappedAttrsIn(ems[i].attrMappings, attrs2)
    requires MadeFromEach(es, ems[..i], attrs1, attrTypes1, implements)
    requires EntityMadeFrom(e, EntityMapping(ems[i].typ, ems[i].attrMappings), attrs2, attrTypes2, implements)
    ensures MadeFromEach(es + [e], ems[..i + 1], attrs2, attrTypes2, implements)
    ensures EntityAttrsIn(ems[..i + 1], attrs2)
    ensures MappedTypes(ems[..i + 1]) == MappedTypes(ems[..i]) + {ems[i].typ}
    ensures Register(attrs0, attrTypes0, EntityDecls(ems[..i + 1]), max, implements) == Ok((attrs2, attrTypes2))
  {
    assert EntityMapping(ems[i].typ, ems[i].attrMappings) == ems[i];
    MadeFromEachStep(es, e, ems, i, attrs1, attrTypes1, attrs2, attrTypes2, implements);
    EntityStep(ems, i, attrs1, attrs2);
    EntityDeclsThen(ems, i, attrs0, attrTypes0, attrs1, attrTypes1, attrs2, attrTypes2, max, implements);
  }

/** Registering the declarations of the first i entity mappings, then
      those of mapping i, registers those of the first i + 1. */
  lemma EntityDeclsThen(ems: seq<EntityMapping>, i: nat, attrs0: seq<Attr>, attrTypes0: seq<Type>,
                        attrs1: seq<Attr>, attrTypes1: seq<Type>, attrs2: seq<Attr>, attrTypes2: seq<Type>,
                        max: nat, implements: Implements)
    requires i < |ems| && |attrs0| == |attrTypes0| && |attrs1| == |attrTypes1|
    requires Register(attrs0, attrTypes0, EntityDecls(ems[..i]), max, implements) == Ok((attrs1, attrTypes1))
    requires Register(attrs1, attrTypes1, PairDecls(ems[i].typ, Pairs(ems[i].attrMappings)), max, implements) ==
      Ok((attrs2, attrTypes2))
    ensures Register(attrs0, attrTypes0, EntityDecls(ems[..i + 1]), max, implements) == Ok((attrs2, attrTypes2))
  {
    EntityDeclsStep(ems, i);
    RegisterThen(attrs0, attrTypes0, EntityDecls(ems[..i]), attrs1, attrTypes1,
                 PairDecls(ems[i].typ, Pairs(ems[i].attrMappings)), attrs2, attrTypes2, max, implements);
  }

  /** The declarations of Self and Type that close buildSchema. */
  const SystemDecls: seq<AttrTypeDecl> := [AttrTypeDecl(SelfAttr, EmptyInterfaceType), AttrTypeDecl(TypeAttr, ReflectTypeType)]

  /** Self and Type always fit into an empty table that has room for two. */
  lemma RegisterSystemEmpty(max: nat, implements: Implements)
    requires max >= 2
    ensures Register([], [], SystemDecls, max, implements).Ok?
  {
    var rest := SystemDecls[1..];
    assert rest == [AttrTypeDecl(TypeAttr, ReflectTypeType)] && rest[1..] == [];
    assert [] + [SelfAttr] == [SelfAttr] && [] + [EmptyInterfaceType] == [EmptyInterfaceType];
    assert [SelfAttr] + [TypeAttr] == [SelfAttr, TypeAttr];
    assert [EmptyInterfaceType] + [ReflectTypeType] == [EmptyInterfaceType, ReflectTypeType];
    assert Register([], [], SystemDecls, max, implements) == Register([SelfAttr], [EmptyInterfaceType], rest, max, implements);
    assert TypeAttr !in [SelfAttr];
    assert Register([SelfAttr], [EmptyInterfaceType], rest, max, implements)
        == Register([SelfAttr, TypeAttr], [EmptyInterfaceType, ReflectTypeType], [], max, implements);
  }

  /** Registering Self and Type is registering Self, then Type. */
  lemma RegisterSystem(attrs: seq<Attr>, attrTypes: seq<Type>, max: nat, implements: Implements)
    requires |attrs| == |attrTypes|
    ensures var self := Register(attrs, attrTypes, [AttrTypeDecl(SelfAttr, EmptyInterfaceType)], max, implements);
      Register(attrs, attrTypes, SystemDecls, max, implements) ==
        if self.Ok? then Register(self.value.0, self.value.1, [AttrTypeDecl(TypeAttr, ReflectTypeType)], max, implements)
        else self
  {
    assert SystemDecls == [SystemDecls[0]] + [SystemDecls[1]];
    RegisterAppend(attrs, attrTypes, [SystemDecls[0]], [SystemDecls[1]], max, implements);
  }

  /** Every declaration buildSchema registers, in order: the declared
      attribute types, the entity mappings' members, then Self and Type. */
  ghost function BuildDecls(m: SchemaMappings): seq<AttrTypeDecl> {
    m.attrTypes + EntityDecls(m.entityMappings) + SystemDecls
  }

  /** entityTypeSchema: an entity type, its fields sorted by ordinal, the
      fields of each ordinal, and its rank among the schema's types. */
  class EntityTypeSchema {
    const typ: Type
    const fields: seq<FieldInfo>
    const attrFields: map<nat, seq<FieldInfo>>
    var typID: nat

    constructor (typ: Type, fields: seq<FieldInfo>, attrFields: map<nat, seq<FieldInfo>>, typID: nat)
      ensures this.typ == typ && this.fields == fields && this.attrFields == attrFields
      ensures this.typID == typID
    {
      this.typ := typ;
      this.fields := fields;
      this.attrFields := attrFields;
      this.typID := typID;
    }
  }

  /** What maybeAddTypeMapping establishes of an entity type when n
      attributes are registered: a struct pointer type, fields that
      resolve, sorted by ordinal, indexed by ordinal, with known ordinals. */
  ghost predicate EntityWellFormed(e: EntityTypeSchema, n: nat) {
    && IsStructPointer(e.typ)
    && SortedByAttr(e.fields)
    && e.attrFields.Keys == AttrsOf(e.fields)
    && (forall o | o in e.attrFields :: e.attrFields[o] == Filter(e.fields, o))
    && (forall k | 0 <= k < |e.fields| :: FieldResolves(e.fields[k], e.typ) && e.fields[k].attr < n)
  }

  lemma EntityWellFormedGrows(e: EntityTypeSchema, n: nat, n': nat)
    requires EntityWellFormed(e, n) && n <= n'
    ensures EntityWellFormed(e, n')
  {
  }

  /** Every entity type of the list is well formed for n attributes. The
      trigger keeps the definition of EntityWellFormed folded until a
      proof asks about a particular entity type. */
  ghost predicate AllWellFormed(es: seq<EntityTypeSchema>, n: nat) {
    forall e {:trigger EntityWellFormed(e, n)} | e in es :: EntityWellFormed(e, n)
  }

  lemma AllWellFormedGrows(es: seq<EntityTypeSchema>, n: nat, n': nat)
    requires AllWellFormed(es, n) && n <= n'
    ensures AllWellFormed(es, n')
  {
    forall e | e in es ensures EntityWellFormed(e, n') {
      EntityWellFormedGrows(e, n, n');
    }
  }

  lemma AllWellFormedAppend(es: seq<EntityTypeSchema>, e: EntityTypeSchema, n: nat)
    requires AllWellFormed(es, n) && EntityWellFormed(e, n)
    ensures AllWellFormed(es + [e], n)
  {
    forall x | x in es + [e] ensures EntityWellFormed(x, n) {
      if x != e {
        assert x in es;
      }
    }
  }

  /** The entity type was made for entity mapping em: it has em's type,
      and its fields are those made for em's (attribute, selector) pairs,
      sorted by ordinal. */
  ghost predicate EntityMadeFrom(e: EntityTypeSchema, em: EntityMapping,
                                 attrs: seq<Attr>, attrTypes: seq<Type>, implements: Implements) {
    e.typ == em.typ && MadeFrom(e.fields, em.typ, em.attrMappings, attrs, attrTypes, implements)
  }

  /** The k-th entity type was made for the k-th entity mapping. */
  ghost predicate MadeFromEach(es: seq<EntityTypeSchema>, ems: seq<EntityMapping>,
                               attrs: seq<Attr>, attrTypes: seq<Type>, implements: Implements) {
    && |es| == |ems|
    && forall k {:trigger EntityMadeFrom(es[k], ems[k], attrs, attrTypes, implements)} | 0 <= k < |es| ::
         EntityMadeFrom(es[k], ems[k], attrs, attrTypes, implements)
  }

  /** Registering more attributes keeps every entity type made from its
      mapping. */
  lemma MadeFromEachGrows(es: seq<EntityTypeSchema>, ems: seq<EntityMapping>,
                          attrs: seq<Attr>, attrTypes: seq<Type>,
                          attrs': seq<Attr>, attrTypes': seq<Type>, implements: Implements)
    requires MadeFromEach(es, ems, attrs, attrTypes, implements)
    requires attrs <= attrs' && attrTypes <= attrTypes'
    ensures MadeFromEach(es, ems, attrs', attrTypes', implements)
  {
    forall k | 0 <= k < |es| ensures EntityMadeFrom(es[k], ems[k], attrs', attrTypes', implements) {
      assert EntityMadeFrom(es[k], ems[k], attrs, attrTypes, implements);
      MadeFromExtends(es[k].fields, ems[k].typ, ems[k].attrMappings, attrs, attrTypes, attrs', attrTypes', implements);
    }
  }

  /** The loop step of addEntityTypes: an entity type made from mapping i
      extends the correspondence to the first i + 1 mappings. */
  lemma MadeFromEachStep(es: seq<EntityTypeSchema>, e: EntityTypeSchema, ems: seq<EntityMapping>, i: nat,
                         attrs: seq<Attr>, attrTypes: seq<Type>,
                         attrs': seq<Attr>, attrTypes': seq<Type>, implements: Implements)
    requires i < |ems| && MadeFromEach(es, ems[..i], attrs, attrTypes, implements)
    requires attrs <= attrs' && attrTypes <= attrTypes'
    requires EntityMadeFrom(e, ems[i], attrs', attrTypes', implements)
    ensures MadeFromEach(es + [e], ems[..i + 1], attrs', attrTypes', implements)
  {
    MadeFromEachGrows(es, ems[..i], attrs, attrTypes, attrs', attrTypes', implements);
    forall k | 0 <= k < |es| + 1
      ensures EntityMadeFrom((es + [e])[k], ems[..i + 1][k], attrs', attrTypes', implements)
    {
      if k < |es| {
        assert (es + [e])[k] == es[k] && ems[..i + 1][k] == ems[..i][k];
      }
    }
  }

  /** Some entity type of es was made for entity mapping em. */
  ghost predicate HasEntityFor(es: seq<EntityTypeSchema>, em: EntityMapping,
                               attrs: seq<Attr>, attrTypes: seq<Type>, implements: Implements) {
    exists k :: 0 <= k < |es| && EntityMadeFrom(es[k], em, attrs, attrTypes, implements)
  }

  /** Entity type e was made for some entity mapping of ems. */
  ghost predicate HasMappingFor(e: EntityTypeSchema, ems: seq<EntityMapping>,
                                attrs: seq<Attr>, attrTypes: seq<Type>, implements: Implements) {
    exists j :: 0 <= j < |ems| && EntityMadeFrom(e, ems[j], attrs, attrTypes, implements)
  }

  /** In some order, each entity type was made for one of the entity
      mappings, and each mapping had one made for it. */
  ghost predicate MadeForMappings(es: seq<EntityTypeSchema>, ems: seq<EntityMapping>,
                                  attrs: seq<Attr>, attrTypes: seq<Type>, implements: Implements) {
    && (forall j {:trigger HasEntityFor(es, ems[j], attrs, attrTypes, implements)} | 0 <= j < |ems| ::
          HasEntityFor(es, ems[j], attrs, attrTypes, implements))
    && (forall k {:trigger HasMappingFor(es[k], ems, attrs, attrTypes, implements)} | 0 <= k < |es| ::
          HasMappingFor(es[k], ems, attrs, attrTypes, implements))
  }

  /** After reordering, every entity mapping still has an entity type
      made for it. */
  lemma MappingHasEntity(es0: seq<EntityTypeSchema>, es: seq<EntityTypeSchema>, ems: seq<EntityMapping>, j: nat,
                         attrs: seq<Attr>, attrTypes: seq<Type>, implements: Implements)
    requires MadeFromEach(es0, ems, attrs, attrTypes, implements) && multiset(es) == multiset(es0)
    requires j < |ems|
    ensures HasEntityFor(es, ems[j], attrs, attrTypes, implements)
  {
    var e := es0[j];
    assert EntityMadeFrom(e, ems[j], attrs, attrTypes, implements);
    assert e in multiset(es0);
    assert e in es;
    var k :| 0 <= k < |es| && es[k] == e;
  }

  /** After reordering, every entity type was still made for some entity
      mapping. */
  lemma EntityHasMapping(es0: seq<EntityTypeSchema>, es: seq<EntityTypeSchema>, ems: seq<EntityMapping>, k: nat,
                         attrs: seq<Attr>, attrTypes: seq<Type>, implements: Implements)
    requires MadeFromEach(es0, ems, attrs, attrTypes, implements) && multiset(es) == multiset(es0)
    requires k < |es|
    ensures HasMappingFor(es[k], ems, attrs, attrTypes, implements)
  {
    assert es[k] in multiset(es);
    var j :| 0 <= j < |es0| && es0[j] == es[k];
    assert EntityMadeFrom(es0[j], ems[j], attrs, attrTypes, implements);
  }

  /** Reordering the entity types keeps every mapping's entity type listed,
      and every listed entity type made for some mapping. */
  lemma MadeFromPermuted(es0: seq<EntityTypeSchema>, es: seq<EntityTypeSchema>, ems: seq<EntityMapping>,
                         attrs: seq<Attr>, attrTypes: seq<Type>, implements: Implements)
    requires MadeFromEach(es0, ems, attrs, attrTypes, implements)
    requires multiset(es) == multiset(es0)
    ensures MadeForMappings(es, ems, attrs, attrTypes, implements)
  {
    forall j | 0 <= j < |ems| ensures HasEntityFor(es, ems[j], attrs, attrTypes, implements) {
      MappingHasEntity(es0, es, ems, j, attrs, attrTypes, implements);
    }
    forall k | 0 <= k < |es| ensures HasMappingFor(es[k], ems, attrs, attrTypes, implements) {
      EntityHasMapping(es0, es, ems, k, attrs, attrTypes, implements);
    }
  }

  /** The map by type points at entity types of the list with that type,
      and every listed entity type's type is mapped. */
  ghost predicate EntitiesValid(es: seq<EntityTypeSchema>, byType: map<Type, EntityTypeSchema>) {
    && (forall t | t in byType :: byType[t] in es && byType[t].typ == t)
    && (forall e | e in es :: e.typ in byType)
  }

  /** Only which entity types are listed matters, not their order. */
  lemma EntitiesReordered(es: seq<EntityTypeSchema>, es': seq<EntityTypeSchema>,
                          byType: map<Type, EntityTypeSchema>, n: nat)
    requires EntitiesValid(es, byType) && AllWellFormed(es, n)
    requires (forall e | e in es :: e in es') && (forall e | e in es' :: e in es)
    ensures EntitiesValid(es', byType) && AllWellFormed(es', n)
  {
    forall x | x in es' ensures EntityWellFormed(x, n) {
      assert x in es;
    }
  }

  /** The types of a sequence of entity types, in order. */
  function TypesOf(s: seq<EntityTypeSchema>): (r: seq<Type>)
    ensures |r| == |s| && forall k | 0 <= k < |s| :: r[k] == s[k].typ
  {
    seq(|s|, k requires 0 <= k < |s| => s[k].typ)
  }

  /** The set of types of a sequence of entity types. */
  ghost function TypeSet(s: seq<EntityTypeSchema>): set<Type> {
    set k | 0 <= k < |s| :: s[k].typ
  }

  lemma {:induction false} TypeSetBound(s: seq<EntityTypeSchema>)
    ensures |TypeSet(s)| <= |s|
  {
    if |s| > 0 {
      var init := s[..|s| - 1];
      assert TypeSet(s) == TypeSet(init) + {s[|s| - 1].typ} by {
        forall x | x in TypeSet(s) ensures x in TypeSet(init) + {s[|s| - 1].typ} {
          var k :| 0 <= k < |s| && s[k].typ == x;
          if k < |s| - 1 { assert init[k].typ == x; }
        }
        forall x | x in TypeSet(init) ensures x in TypeSet(s) {
          var k :| 0 <= k < |init| && init[k].typ == x;
          assert s[k].typ == x;
        }
      }
      TypeSetBound(init);
    }
  }

  lemma {:induction false} TypeSetOfDistinct(s: seq<EntityTypeSchema>)
    requires Distinct(TypesOf(s))
    ensures |TypeSet(s)| == |s|
  {
    if |s| > 0 {
      var init := s[..|s| - 1];
      var last := s[|s| - 1].typ;
      assert TypeSet(s) == TypeSet(init) + {last} by {
        forall x | x in TypeSet(s) ensures x in TypeSet(init) + {last} {
          var k :| 0 <= k < |s| && s[k].typ == x;
          if k < |s| - 1 { assert init[k].typ == x; }
        }
        forall x | x in TypeSet(init) ensures x in TypeSet(s) {
          var k :| 0 <= k < |init| && init[k].typ == x;
          assert s[k].typ == x;
        }
      }
      assert last !in TypeSet(init) by {
        forall k | 0 <= k < |init| ensures init[k].typ != last {
          assert TypesOf(s)[k] == init[k].typ && TypesOf(s)[|s| - 1] == last;
        }
      }
      assert Distinct(TypesOf(init)) by {
        forall p, q | 0 <= p < q < |init| ensures TypesOf(init)[p] != TypesOf(init)[q] {
          assert TypesOf(init)[p] == TypesOf(s)[p] && TypesOf(init)[q] == TypesOf(s)[q];
        }
      }
      TypeSetOfDistinct(init);
    }
  }

  /** The sequence with the elements at i and j exchanged. */
  function SwapAt<T>(s: seq<T>, i: nat, j: nat): seq<T>
    requires i < |s| && j < |s|
  {
    s[i := s[j]][j := s[i]]
  }

  /** Swapping two positions keeps the same elements. */
  lemma SwapKeepsElements<T>(s: seq<T>, i: nat, j: nat)
    requires i < |s| && j < |s|
    ensures multiset(SwapAt(s, i, j)) == multiset(s)
    ensures forall x :: x in SwapAt(s, i, j) <==> x in s
  {
    var t := s[i := s[j]];
    assert multiset(t) == multiset(s) - multiset{s[i]} + multiset{s[j]};
    assert t[j] == s[j] || i == j;
    forall x ensures x in SwapAt(s, i, j) <==> x in s {
      assert x in multiset(SwapAt(s, i, j)) <==> x in multiset(s);
    }
  }

  lemma TypesOfSwap(s: seq<EntityTypeSchema>, i: nat, j: nat)
    requires i < |s| && j < |s|
    ensures TypesOf(SwapAt(s, i, j)) == SwapAt(TypesOf(s), i, j)
  {
    var l, r := TypesOf(SwapAt(s, i, j)), SwapAt(TypesOf(s), i, j);
    assert |l| == |r|;
    forall k | 0 <= k < |l| ensures l[k] == r[k] {
      if k == j {
        assert l[k] == s[i].typ;
      } else if k == i {
        assert l[k] == s[j].typ;
      } else {
        assert l[k] == s[k].typ;
      }
    }
  }

  /** The state of an insertion round that is moving an element down to
      position j: all neighbours among the first i + 1 positions are in
      order except possibly (j - 1, j), and the element at j - 1 is not
      above the one at j + 1. */
  ghost predicate SortedExceptAt(ts: seq<Type>, i: nat, j: nat, less: Less) {
    && j <= i < |ts|
    && (forall k | 0 <= k < i && k + 1 != j :: !less(ts[k + 1], ts[k]))
    && (0 < j < i ==> !less(ts[j + 1], ts[j - 1]))
  }

  /** Swapping an out-of-order pair (j - 1, j) moves the exception one
      position down. */
  lemma InsertionStep(ts: seq<Type>, i: nat, j: nat, less: Less)
    requires Asymmetric(less) && 0 < j
    requires SortedExceptAt(ts, i, j, less)
    requires less(ts[j], ts[j - 1])
    ensures SortedExceptAt(SwapAt(ts, j, j - 1), i, j - 1, less)
  {
    var us := SwapAt(ts, j, j - 1);
    forall k | 0 <= k < i && k + 1 != j - 1 ensures !less(us[k + 1], us[k]) {
      if k == j - 1 {
        assert us[k + 1] == ts[j - 1] && us[k] == ts[j];
      } else if k == j {
        assert us[k + 1] == ts[j + 1] && us[k] == ts[j - 1];
      } else {
        assert us[k + 1] == ts[k + 1] && us[k] == ts[k];
      }
    }
    if 0 < j - 1 {
      assert us[j] == ts[j - 1] && us[j - 2] == ts[j - 2];
    }
  }

  /** No neighbour among the first n positions is out of order. */
  ghost predicate SortedPrefix(ts: seq<Type>, n: nat, less: Less) {
    forall k | 0 <= k < |ts| - 1 && k + 1 < n :: !less(ts[k + 1], ts[k])
  }

  /** es holds the same entity types as es0, and agrees with it from
      position from on. */
  ghost predicate Rearranged(es: seq<EntityTypeSchema>, es0: seq<EntityTypeSchema>, from: nat) {
    && |es| == |es0| && from <= |es|
    && multiset(es) == multiset(es0)
    && (forall e | e in es :: e in es0)
    && (forall e | e in es0 :: e in es)
    && es[from..] == es0[from..]
  }

  lemma RearrangedSwap(es: seq<EntityTypeSchema>, es0: seq<EntityTypeSchema>, from: nat, i: nat, j: nat)
    requires Rearranged(es, es0, from) && i < from && j < from
    ensures Rearranged(SwapAt(es, i, j), es0, from)
  {
    SwapKeepsElements(es, i, j);
    assert SwapAt(es, i, j)[from..] == es[from..];
  }

  lemma RearrangedTrans(es: seq<EntityTypeSchema>, mid: seq<EntityTypeSchema>, es0: seq<EntityTypeSchema>,
                        a: nat, b: nat)
    requires Rearranged(es, mid, a) && Rearranged(mid, es0, b) && a <= b
    ensures Rearranged(es, es0, b)
  {
    assert es[b..] == es[a..][b - a..];
    assert mid[b..] == mid[a..][b - a..];
  }

  /** Swapping the out-of-order pair (j - 1, j) of a list in the middle
      of an insertion round keeps it a rearrangement and moves the
      exception one position down. */
  lemma SwapDownStep(es: seq<EntityTypeSchema>, es0: seq<EntityTypeSchema>, i: nat, j: nat, less: Less)
    requires Asymmetric(less) && 0 < j
    requires Rearranged(es, es0, i + 1)
    requires SortedExceptAt(TypesOf(es), i, j, less)
    requires less(es[j].typ, es[j - 1].typ)
    ensures Rearranged(SwapAt(es, j, j - 1), es0, i + 1)
    ensures SortedExceptAt(TypesOf(SwapAt(es, j, j - 1)), i, j - 1, less)
  {
    var ts := TypesOf(es);
    assert less(ts[j], ts[j - 1]);
    InsertionStep(ts, i, j, less);
    TypesOfSwap(es, j, j - 1);
    RearrangedSwap(es, es0, i + 1, j, j - 1);
  }

  /** What the insertion sort leaves behind: the same entity types, still
      agreeing with the map and well formed, the tail untouched, and the
      first n positions in order. */
  lemma SortOutcome(es0: seq<EntityTypeSchema>, es: seq<EntityTypeSchema>,
                    byType: map<Type, EntityTypeSchema>, m: nat, n: nat, less: Less)
    requires EntitiesValid(es0, byType) && AllWellFormed(es0, m)
    requires Rearranged(es, es0, n) && SortedPrefix(TypesOf(es), n, less)
    ensures EntitiesValid(es, byType) && AllWellFormed(es, m)
    ensures multiset(es) == multiset(es0) && es[n..] == es0[n..]
    ensures AdjacentSorted(TypesOf(es[..n]), less)
  {
    EntitiesReordered(es0, es, byType, m);
    assert TypesOf(es)[..n] == TypesOf(es[..n]);
  }

  /** Schema: the attributes with their declared types and ordinals, and
      the entity types, by position and by type. */
  class Schema {
    const name: string
    /** The bound on the number of attributes, Self and Type included. */
    const maxUserAttribute: nat
    var attrs: seq<Attr>
    var attrTypes: seq<Type>
    var attrToOrdinal: map<Attr, nat>
    var entityTypes: seq<EntityTypeSchema>
    var entityTypeSchemas: map<Type, EntityTypeSchema>
    var typeOrdinal: nat
    var selfOrdinal: nat

    /** Ordinals are dense: attrs and attrToOrdinal are inverse to each
        other, and there are no more attributes than the bound. */
    ghost predicate AttrsValid()
      reads this`attrs, this`attrTypes, this`attrToOrdinal
    {
      && |attrs| == |attrTypes| <= maxUserAttribute
      && (forall a | a in attrToOrdinal :: attrToOrdinal[a] < |attrs| && attrs[attrToOrdinal[a]] == a)
      && (forall k | 0 <= k < |attrs| :: attrs[k] in attrToOrdinal && attrToOrdinal[attrs[k]] == k)
    }

    /** Each entity type's rank is its position, and the list and the map
        by type agree, and every entity type is well formed. */
    ghost predicate TypesValid()
      reads this`attrs, this`entityTypes, this`entityTypeSchemas, entityTypes
    {
      && RanksValid()
      && EntitiesValid(entityTypes, entityTypeSchemas)
      && AllWellFormed(entityTypes, |attrs|)
    }

    /** Each entity type's rank is its position in the list. */
    ghost predicate RanksValid()
      reads this`entityTypes, entityTypes
    {
      forall k | 0 <= k < |entityTypes| :: entityTypes[k].typID == k
    }

    ghost predicate Valid()
      reads this`attrs, this`attrTypes, this`attrToOrdinal, this`entityTypes, this`entityTypeSchemas, entityTypes
    {
      AttrsValid() && TypesValid()
    }

    /** Everything but the entity type list and the entity types' ranks. */
    ghost function Tables(): (seq<Attr>, seq<Type>, map<Attr, nat>, map<Type, EntityTypeSchema>, nat, nat)
      reads this
    {
      (attrs, attrTypes, attrToOrdinal, entityTypeSchemas, selfOrdinal, typeOrdinal)
    }

    /** The attribute tables only grow: earlier entries and ordinals stay. */
    ghost predicate AttrsExtend(attrs0: seq<Attr>, attrTypes0: seq<Type>, ordinals0: map<Attr, nat>)
      reads this`attrs, this`attrTypes, this`attrToOrdinal
    {
      && attrs0 <= attrs && attrTypes0 <= attrTypes
      && (forall b | b in ordinals0 :: b in attrToOrdinal && attrToOrdinal[b] == ordinals0[b])
    }

    constructor (name: string, maxUserAttribute: nat)
      ensures Valid()
      ensures this.name == name && this.maxUserAttribute == maxUserAttribute
      ensures attrs == [] && attrTypes == [] && attrToOrdinal == map[]
      ensures entityTypes == [] && entityTypeSchemas == map[]
    {
      this.name := name;
      this.maxUserAttribute := maxUserAttribute;
      attrs := [];
      attrTypes := [];
      attrToOrdinal := map[];
      entityTypes := [];
      entityTypeSchemas := map[];
      typeOrdinal := 0;
      selfOrdinal := 0;
    }

    /** Whether maybeAddAttribute(a, typ) succeeds in the current state:
        a known attribute must accept typ, a new one needs room. */
    ghost predicate Admits(a: Attr, typ: Type, implements: Implements)
      reads this`attrs, this`attrTypes, this`attrToOrdinal
      requires AttrsValid()
    {
      if a in attrToOrdinal then CheckType(typ, attrTypes[attrToOrdinal[a]], implements)
      else |attrs| < maxUserAttribute
    }

    /** An attribute's ordinal is its first, and only, position. */
    lemma OrdinalIsIndex(a: Attr)
      requires AttrsValid() && a in attrToOrdinal
      ensures a in attrs && IndexOf(attrs, a) == attrToOrdinal[a]
    {
      assert attrs[attrToOrdinal[a]] == a;
      var k := IndexOf(attrs, a);
      assert attrToOrdinal[attrs[k]] == k;
    }

    /** getOrdinal: the ordinal of a registered attribute, an error for
        any other. */
    function GetOrdinal(a: Attr): (r: Result<nat, string>)
      reads this`attrs, this`attrTypes, this`attrToOrdinal
      requires AttrsValid()
      ensures r.Ok? <==> a in attrs
      ensures r.Ok? ==> r.value < |attrs| && attrs[r.value] == a
      ensures r.Err? ==> r.error == UnknownAttribute(a, name)
    {
      if a in attrToOrdinal then Ok(attrToOrdinal[a]) else Err(UnknownAttribute(a, name))
    }

    /** mustGetOrdinal: as getOrdinal, for an attribute that must be there. */
    function MustGetOrdinal(a: Attr): (ord: nat)
      reads this`attrs, this`attrTypes, this`attrToOrdinal
      requires AttrsValid() && a in attrs
      ensures ord < |attrs| && attrs[ord] == a
    {
      GetOrdinal(a).value
    }

    /** maybeAddAttribute: a new attribute gets the next ordinal, unless
        that ordinal would reach the bound; a known one keeps its ordinal
        provided its declared type accepts typ. */
    method MaybeAddAttribute(a: Attr, typ: Type, implements: Implements) returns (r: Result<nat, BuildError>)
      requires Valid()
      modifies this
      ensures Valid()
      ensures entityTypes == old(entityTypes) && entityTypeSchemas == old(entityTypeSchemas)
      ensures selfOrdinal == old(selfOrdinal) && typeOrdinal == old(typeOrdinal)
      ensures AttrsExtend(old(attrs), old(attrTypes), old(attrToOrdinal))
      ensures r.Ok? <==> old(Admits(a, typ, implements))
      ensures r.Ok? ==> r.value < |attrs| && attrs[r.value] == a
      ensures r.Ok? ==> attrTypes[r.value] == typ || CheckType(typ, attrTypes[r.value], implements)
      ensures a !in old(attrToOrdinal) && r.Ok? ==>
        && r.value == |old(attrs)|
        && attrs == old(attrs) + [a] && attrTypes == old(attrTypes) + [typ]
      ensures a !in old(attrToOrdinal) && r.Err? ==> r.error == TooManyAttributes
      ensures a in old(attrToOrdinal) ==> r.Ok? ==> r.value == old(attrToOrdinal)[a]
      ensures a in old(attrToOrdinal) && r.Err? ==>
        r.error == TypeMismatch(a, typ, old(attrTypes)[old(attrToOrdinal)[a]])
      ensures a in old(attrToOrdinal) || r.Err? ==>
        attrs == old(attrs) && attrTypes == old(attrTypes) && attrToOrdinal == old(attrToOrdinal)
      ensures r.Err? ==> !Admits(a, typ, implements) && r.error == AttributeError(a, typ)
      ensures old(Register(attrs, attrTypes, [AttrTypeDecl(a, typ)], maxUserAttribute, implements)) ==
        if r.Ok? then Ok((attrs, attrTypes)) else Err(r.error)
    {
      assert [AttrTypeDecl(a, typ)][1..] == [];
      if a !in attrToOrdinal {
        var ord := |attrs|;
        if ord >= maxUserAttribute {
          return Err(TooManyAttributes);
        }
        attrs := attrs + [a];
        attrTypes := attrTypes + [typ];
        attrToOrdinal := attrToOrdinal[a := ord];
        AllWellFormedGrows(entityTypes, ord, |attrs|);
        return Ok(ord);
      }
      var ord := attrToOrdinal[a];
      var prev := attrTypes[ord];
      OrdinalIsIndex(a);
      if !CheckType(typ, prev, implements) {
        return Err(TypeMismatch(a, typ, prev));
      }
      return Ok(ord);
    }

    /** Whether addTypeAttrMapping(a, t, sel) succeeds in the current
        state: the selector names a member, of a supported type, whose
        declared type the attribute admits. */
    ghost predicate AcceptsMapping(a: Attr, t: Type, sel: string, implements: Implements)
      reads this`attrs, this`attrTypes, this`attrToOrdinal
      requires AttrsValid() && IsStructPointer(t)
    {
      match Walk(t.elem, Split(sel))
      case None => false
      case Some((_, cur)) =>
        match MakeFieldFlags(cur)
        case None => false
        case Some(flags) => Admits(a, DeclaredType(cur, flags), implements)
    }

    /** The error maybeAddAttribute(a, typ) gives when it does not admit
        typ: a type mismatch for a known attribute, no room for a new one. */
    ghost function AttributeError(a: Attr, typ: Type): BuildError
      reads this`attrs, this`attrTypes, this`attrToOrdinal
      requires AttrsValid()
    {
      if a in attrToOrdinal then TypeMismatch(a, typ, attrTypes[attrToOrdinal[a]]) else TooManyAttributes
    }

    /** The error addTypeAttrMapping(a, t, sel) gives when it does not
        accept the mapping: the first of its checks that fails. */
    ghost function MappingError(a: Attr, t: Type, sel: string): BuildError
      reads this`attrs, this`attrTypes, this`attrToOrdinal
      requires AttrsValid() && IsStructPointer(t)
    {
      match Walk(t.elem, Split(sel))
      case None => NotAField(t, sel)
      case Some((_, cur)) =>
        match MakeFieldFlags(cur)
        case None => UnsupportedType(sel, t, cur)
        case Some(flags) => AttributeError(a, DeclaredType(cur, flags))
    }

    /** The pairs before ps[|fields|] were accepted and made fields, and
        ps[|fields|] is refused in the current state with error e. */
    ghost predicate RejectedAt(fields: seq<FieldInfo>, t: Type, ps: seq<(Attr, string)>, e: BuildError,
                               implements: Implements)
      reads this`attrs, this`attrTypes, this`attrToOrdinal
      requires AttrsValid() && IsStructPointer(t)
    {
      && |fields| < |ps|
      && Produces(fields, t, ps[..|fields|], attrs, attrTypes, implements)
      && Refuses(ps[|fields|], t, e, implements)
    }

    /** The (attribute, selector) pair p is not accepted, with error e. */
    ghost predicate Refuses(p: (Attr, string), t: Type, e: BuildError, implements: Implements)
      reads this`attrs, this`attrTypes, this`attrToOrdinal
      requires AttrsValid() && IsStructPointer(t)
    {
      !AcceptsMapping(p.0, t, p.1, implements) && e == MappingError(p.0, t, p.1)
    }

    /** How maybeAddTypeMapping(t, mappings) fails: t is not a struct
        pointer, or some pair is refused after the ones before it. */
    ghost predicate TypeMappingRejected(t: Type, mappings: seq<AttrMapping>, e: BuildError, implements: Implements)
      reads this`attrs, this`attrTypes, this`attrToOrdinal
      requires AttrsValid()
    {
      if !IsStructPointer(t) then e == NotStructPointer(t)
      else exists fs :: RejectedAt(fs, t, Pairs(mappings), e, implements)
    }

    /** A refused entity mapping's error comes from the mapping itself,
        never a wrapped one. */
    lemma RejectedIsPhaseError(t: Type, mappings: seq<AttrMapping>, e: BuildError, implements: Implements)
      requires AttrsValid() && TypeMappingRejected(t, mappings, e, implements)
      ensures PhaseError(e)
    {
      if IsStructPointer(t) {
        var fs :| RejectedAt(fs, t, Pairs(mappings), e, implements);
        var ps := Pairs(mappings);
        var a, sel := ps[|fs|].0, ps[|fs|].1;
        assert e == MappingError(a, t, sel);
      }
    }

    /** addTypeAttrMapping: resolves the selector, classifies the member,
        registers the attribute with the member's declared type and
        returns the field; the accessors are RelTypes.Value, Inline and
        ComparableValue of that field. */
    method AddTypeAttrMapping(a: Attr, t: Type, sel: string, implements: Implements)
      returns (r: Result<FieldInfo, BuildError>)
      requires Valid() && IsStructPointer(t)
      modifies this
      ensures Valid()
      ensures entityTypes == old(entityTypes) && entityTypeSchemas == old(entityTypeSchemas)
      ensures selfOrdinal == old(selfOrdinal) && typeOrdinal == old(typeOrdinal)
      ensures AttrsExtend(old(attrs), old(attrTypes), old(attrToOrdinal))
      ensures r.Ok? <==> old(AcceptsMapping(a, t, sel, implements))
      ensures r.Ok? ==> FieldFor(r.value, t, a, sel, attrs, attrTypes, implements)
      ensures Walk(t.elem, Split(sel)).None? ==> r == Err(NotAField(t, sel))
      ensures Walk(t.elem, Split(sel)).Some? && MakeFieldFlags(Walk(t.elem, Split(sel)).value.1).None? ==>
        r == Err(UnsupportedType(sel, t, Walk(t.elem, Split(sel)).value.1))
      ensures r.Err? ==> attrs == old(attrs) && attrTypes == old(attrTypes) && attrToOrdinal == old(attrToOrdinal)
      ensures r.Err? ==> r.error == MappingError(a, t, sel)
      ensures r.Ok? ==>
        old(Register(attrs, attrTypes, PairDecls(t, [(a, sel)]), maxUserAttribute, implements)) == Ok((attrs, attrTypes))
    {
      var found := GetOffsetAndTypeFromSelector(t, sel);
      if found.None? {
        return Err(NotAField(t, sel));
      }
      var (offset, cur) := found.value;
      var fl := MakeFieldFlags(cur);
      if fl.None? {
        return Err(UnsupportedType(sel, t, cur));
      }
      var flags := fl.value;
      var typ := DeclaredType(cur, flags);
      var ord := MaybeAddAttribute(a, typ, implements);
      if ord.Err? {
        return Err(ord.error);
      }
      assert [(a, sel)][..0] == [];
      return Ok(FieldInfo(sel, typ, ord.value, flags, offset, cur));
    }

    /** The inner loop of maybeAddTypeMapping: one field per selector of
        one attribute mapping, in order. */
    method CollectSelectorFields(t: Type, am: AttrMapping, implements: Implements)
      returns (err: Option<BuildError>, fields: seq<FieldInfo>)
      requires Valid() && IsStructPointer(t)
      modifies this
      ensures Valid()
      ensures entityTypes == old(entityTypes) && entityTypeSchemas == old(entityTypeSchemas)
      ensures selfOrdinal == old(selfOrdinal) && typeOrdinal == old(typeOrdinal)
      ensures AttrsExtend(old(attrs), old(attrTypes), old(attrToOrdinal))
      ensures err.None? ==> Produces(fields, t, SelectorPairs(am), attrs, attrTypes, implements)
      ensures err.None? && am.selectors != [] ==> am.a in attrs
      ensures err.Some? ==> RejectedAt(fields, t, SelectorPairs(am), err.value, implements)
      ensures err.None? ==>
        old(Register(attrs, attrTypes, PairDecls(t, SelectorPairs(am)), maxUserAttribute, implements)) ==
        Ok((attrs, attrTypes))
    {
      fields := [];
      var j := 0;
      while j < |am.selectors|
        invariant 0 <= j <= |am.selectors|
        invariant Valid()
        invariant entityTypes == old(entityTypes) && entityTypeSchemas == old(entityTypeSchemas)
        invariant selfOrdinal == old(selfOrdinal) && typeOrdinal == old(typeOrdinal)
        invariant AttrsExtend(old(attrs), old(attrTypes), old(attrToOrdinal))
        invariant Produces(fields, t, SelectorPairs(am)[..j], attrs, attrTypes, implements)
        invariant j > 0 ==> am.a in attrs
        invariant Register(old(attrs), old(attrTypes), PairDecls(t, SelectorPairs(am)[..j]), maxUserAttribute, implements) ==
          Ok((attrs, attrTypes))
      {
        ghost var attrs0, attrTypes0 := attrs, attrTypes;
        var f := AddTypeAttrMapping(am.a, t, am.selectors[j], implements);
        if f.Err? {
          assert SelectorPairs(am)[..|fields|] == SelectorPairs(am)[..j];
          return Some(f.error), fields;
        }
        ProducesExtends(fields, t, SelectorPairs(am)[..j], attrs0, attrTypes0, attrs, attrTypes, implements);
        SelectorPairsStep(am, j);
        PairDeclsThen(t, SelectorPairs(am), j, old(attrs), old(attrTypes), attrs0, attrTypes0, attrs, attrTypes,
                      maxUserAttribute, implements);
        fields := fields + [f.value];
        j := j + 1;
      }
      PrefixWhole(SelectorPairs(am));
      return None, fields;
    }

    /** The nested loops of maybeAddTypeMapping: one field per (attribute,
        selector) pair, in order. */
    method CollectFields(t: Type, mappings: seq<AttrMapping>, implements: Implements)
      returns (err: Option<BuildError>, fields: seq<FieldInfo>)
      requires Valid() && IsStructPointer(t)
      modifies this
      ensures Valid()
      ensures entityTypes == old(entityTypes) && entityTypeSchemas == old(entityTypeSchemas)
      ensures selfOrdinal == old(selfOrdinal) && typeOrdinal == old(typeOrdinal)
      ensures AttrsExtend(old(attrs), old(attrTypes), old(attrToOrdinal))
      ensures err.None? ==> Produces(fields, t, Pairs(mappings), attrs, attrTypes, implements)
      ensures err.None? ==> MappedAttrsIn(mappings, attrs)
      ensures err.Some? ==> RejectedAt(fields, t, Pairs(mappings), err.value, implements)
      ensures err.None? ==>
        old(Register(attrs, attrTypes, PairDecls(t, Pairs(mappings)), maxUserAttribute, implements)) ==
        Ok((attrs, attrTypes))
    {
      fields := [];
      var i := 0;
      while i < |mappings|
        invariant 0 <= i <= |mappings|
        invariant Valid()
        invariant entityTypes == old(entityTypes) && entityTypeSchemas == old(entityTypeSchemas)
        invariant selfOrdinal == old(selfOrdinal) && typeOrdinal == old(typeOrdinal)
        invariant AttrsExtend(old(attrs), old(attrTypes), old(attrToOrdinal))
        invariant Produces(fields, t, Pairs(mappings[..i]), attrs, attrTypes, implements)
        invariant MappedAttrsIn(mappings[..i], attrs)
        invariant Register(old(attrs), old(attrTypes), PairDecls(t, Pairs(mappings[..i])), maxUserAttribute, implements) ==
          Ok((attrs, attrTypes))
      {
        ghost var attrs0, attrTypes0 := attrs, attrTypes;
        var e, fs := CollectSelectorFields(t, mappings[i], implements);
        ProducesExtends(fields, t, Pairs(mappings[..i]), attrs0, attrTypes0, attrs, attrTypes, implements);
        if e.Some? {
          RejectedAfter(fields, fs, t, mappings, i, e.value, implements);
          return e, fields + fs;
        }
        ProducesAppend(fields, fs, t, Pairs(mappings[..i]), SelectorPairs(mappings[i]), attrs, attrTypes, implements);
        MappedAttrsStep(mappings, i, attrs0, attrs);
        RegisterThen(old(attrs), old(attrTypes), PairDecls(t, Pairs(mappings[..i])), attrs0, attrTypes0,
                     PairDecls(t, SelectorPairs(mappings[i])), attrs, attrTypes, maxUserAttribute, implements);
        PairDeclsStep(t, mappings, i);
        assert mappings[..i + 1][..i] == mappings[..i];
        fields := fields + fs;
        i := i + 1;
      }
      PrefixWhole(mappings);
      return None, fields;
    }

    /** A pair refused inside one attribute mapping is refused at its place
        among all the pairs. */
    lemma RejectedAfter(fields: seq<FieldInfo>, fs: seq<FieldInfo>, t: Type, mappings: seq<AttrMapping>, i: nat,
                        e: BuildError, implements: Implements)
      requires AttrsValid() && IsStructPointer(t) && i < |mappings|
      requires Produces(fields, t, Pairs(mappings[..i]), attrs, attrTypes, implements)
      requires RejectedAt(fs, t, SelectorPairs(mappings[i]), e, implements)
      ensures RejectedAt(fields + fs, t, Pairs(mappings), e, implements)
    {
      var sp, before := SelectorPairs(mappings[i]), Pairs(mappings[..i]);
      var n := |fields + fs|;
      assert |fields| == |before|;
      PairsSplit(mappings, i, |fs|, n);
      ProducesAppend(fields, fs, t, before, sp[..|fs|], attrs, attrTypes, implements);
    }

    /** maybeAddTypeMapping: checks that t is a pointer to a struct, makes
        one field per (attribute, selector) pair, sorts them by ordinal,
        groups them, and appends a new entity type ranked last. */
    method MaybeAddTypeMapping(t: Type, mappings: seq<AttrMapping>, implements: Implements)
      returns (err: Option<BuildError>)
      requires Valid()
      modifies this
      ensures Valid()
      ensures selfOrdinal == old(selfOrdinal) && typeOrdinal == old(typeOrdinal)
      ensures AttrsExtend(old(attrs), old(attrTypes), old(attrToOrdinal))
      ensures !IsStructPointer(t) ==> err == Some(NotStructPointer(t)) && attrs == old(attrs)
      ensures err.Some? ==> entityTypes == old(entityTypes) && entityTypeSchemas == old(entityTypeSchemas)
      ensures err.Some? ==> TypeMappingRejected(t, mappings, err.value, implements)
      ensures err.None? ==>
        && IsStructPointer(t)
        && MappedAttrsIn(mappings, attrs)
        && |entityTypes| == |old(entityTypes)| + 1
        && entityTypes == old(entityTypes) + [entityTypes[|old(entityTypes)|]]
        && fresh(entityTypes[|old(entityTypes)|])
        && entityTypes[|old(entityTypes)|].typ == t
        && EntityMadeFrom(entityTypes[|old(entityTypes)|], EntityMapping(t, mappings), attrs, attrTypes, implements)
        && entityTypeSchemas == old(entityTypeSchemas)[t := entityTypes[|old(entityTypes)|]]
      ensures err.None? ==>
        old(Register(attrs, attrTypes, PairDecls(t, Pairs(mappings)), maxUserAttribute, implements)) ==
        Ok((attrs, attrTypes))
    {
      if !IsStructPointer(t) {
        return Some(NotStructPointer(t));
      }
      var e, fieldInfos := CollectFields(t, mappings, implements);
      if e.Some? {
        assert RejectedAt(fieldInfos, t, Pairs(mappings), e.value, implements);
        return e;
      }
      var sorted := SortByAttr(fieldInfos);
      var groups := GroupByAttr(sorted);
      SortedFieldsResolve(fieldInfos, t, Pairs(mappings), attrs, attrTypes, implements);
      var ts := new EntityTypeSchema(t, sorted, groups, |entityTypes|);
      AppendEntityType(ts);
      assert MadeFrom(sorted, t, mappings, attrs, attrTypes, implements) by {
        assert Produces(fieldInfos, t, Pairs(mappings), attrs, attrTypes, implements);
      }
      err := None;
    }

    /** The end of maybeAddTypeMapping: the new entity type, ranked last,
        is mapped by its type and appended to the list. */
    method AppendEntityType(ts: EntityTypeSchema)
      requires Valid() && EntityWellFormed(ts, |attrs|)
      requires ts.typID == |entityTypes| && ts !in entityTypes
      modifies this
      ensures Valid()
      ensures entityTypes == old(entityTypes) + [ts]
      ensures entityTypeSchemas == old(entityTypeSchemas)[ts.typ := ts]
      ensures attrs == old(attrs) && attrTypes == old(attrTypes) && attrToOrdinal == old(attrToOrdinal)
      ensures selfOrdinal == old(selfOrdinal) && typeOrdinal == old(typeOrdinal)
    {
      AllWellFormedAppend(entityTypes, ts, |attrs|);
      entityTypeSchemas := entityTypeSchemas[ts.typ := ts];
      entityTypes := entityTypes + [ts];
    }

    /** entityTypeSchemaSort.Len: the number of distinct entity types,
        which is the size of the map by type, not the length of the list. */
    function Len(): (n: nat)
      reads this`attrs, this`attrTypes, this`attrToOrdinal, this`entityTypes, this`entityTypeSchemas, entityTypes
      requires Valid()
      ensures n == |TypeSet(entityTypes)| && n <= |entityTypes|
    {
      assert entityTypeSchemas.Keys == TypeSet(entityTypes) by {
        forall x | x in TypeSet(entityTypes) ensures x in entityTypeSchemas {
          var k :| 0 <= k < |entityTypes| && entityTypes[k].typ == x;
        }
        forall x | x in entityTypeSchemas ensures x in TypeSet(entityTypes) {
          var k :| 0 <= k < |entityTypes| && entityTypes[k] == entityTypeSchemas[x];
        }
      }
      TypeSetBound(entityTypes);
      |entityTypeSchemas|
    }

    /** entityTypeSchemaSort.Less: compares the types at i and j. */
    function Less(i: nat, j: nat, less: Less): bool
      reads this`entityTypes
      requires i < |entityTypes| && j < |entityTypes|
    {
      less(entityTypes[i].typ, entityTypes[j].typ)
    }

    /** entityTypeSchemaSort.Swap: each of the two entity types takes the
        rank of the position it moves to, then the two trade places. */
    method Swap(i: nat, j: nat)
      requires RanksValid() && i < |entityTypes| && j < |entityTypes|
      modifies this, entityTypes[i], entityTypes[j]
      ensures RanksValid()
      ensures entityTypes == SwapAt(old(entityTypes), i, j)
      ensures Tables() == old(Tables())
    {
      entityTypes[i].typID := j;
      entityTypes[j].typID := i;
      entityTypes := entityTypes[i := entityTypes[j]][j := entityTypes[i]];
    }

    /** sort.Sort over entityTypeSchemaSort, as an insertion sort built on
        Less and Swap over the first Len() positions: afterwards no
        neighbour there is out of order, the list holds the same entity
        types, the rest of the list is untouched, and ranks are positions. */
    method SortEntityTypes(less: Less)
      requires Valid() && Asymmetric(less)
      modifies this, set e | e in entityTypes
      ensures Valid()
      ensures attrs == old(attrs) && attrTypes == old(attrTypes) && attrToOrdinal == old(attrToOrdinal)
      ensures entityTypeSchemas == old(entityTypeSchemas)
      ensures selfOrdinal == old(selfOrdinal) && typeOrdinal == old(typeOrdinal)
      ensures multiset(entityTypes) == multiset(old(entityTypes))
      ensures Len() == old(Len())
      ensures entityTypes[Len()..] == old(entityTypes)[Len()..]
      ensures AdjacentSorted(TypesOf(entityTypes[..Len()]), less)
    {
      var n := Len();
      InsertionSort(n, less);
      SortOutcome(old(entityTypes), entityTypes, entityTypeSchemas, |attrs|, n, less);
    }

    /** The insertion sort itself: rounds 1 .. n - 1 of InsertInto. It
        touches only the order of the list and the ranks. */
    method InsertionSort(n: nat, less: Less)
      requires RanksValid() && Asymmetric(less) && n <= |entityTypes|
      modifies this, set e | e in entityTypes
      ensures RanksValid()
      ensures Tables() == old(Tables())
      ensures Rearranged(entityTypes, old(entityTypes), n)
      ensures SortedPrefix(TypesOf(entityTypes), n, less)
    {
      var i := 1;
      while i < n
        invariant 1 <= i && (i == 1 || i <= n)
        invariant RanksValid()
        invariant Tables() == old(Tables())
        invariant Rearranged(entityTypes, old(entityTypes), n)
        invariant SortedPrefix(TypesOf(entityTypes), i, less)
      {
        ghost var before := entityTypes;
        InsertInto(i, less);
        RearrangedTrans(entityTypes, before, old(entityTypes), i + 1, n);
        i := i + 1;
      }
    }

    /** One round of the insertion sort: the entity type at position i
        moves down, by Swaps, past every neighbour it is Less than, so the
        first i + 1 positions are in order. */
    method InsertInto(i: nat, less: Less)
      requires RanksValid() && Asymmetric(less)
      requires 0 < i < |entityTypes|
      requires SortedPrefix(TypesOf(entityTypes), i, less)
      modifies this, set e | e in entityTypes
      ensures RanksValid()
      ensures Tables() == old(Tables())
      ensures Rearranged(entityTypes, old(entityTypes), i + 1)
      ensures SortedPrefix(TypesOf(entityTypes), i + 1, less)
    {
      var j := i;
      assert SortedExceptAt(TypesOf(entityTypes), i, j, less);
      while j > 0 && Less(j, j - 1, less)
        invariant 0 <= j <= i
        invariant RanksValid()
        invariant Tables() == old(Tables())
        invariant Rearranged(entityTypes, old(entityTypes), i + 1)
        invariant SortedExceptAt(TypesOf(entityTypes), i, j, less)
      {
        SwapDown(i, j, less, old(entityTypes));
        j := j - 1;
      }
    }

    /** One step of an insertion round: the out-of-order pair (j - 1, j)
        is Swapped. */
    method SwapDown(i: nat, j: nat, less: Less, ghost es0: seq<EntityTypeSchema>)
      requires RanksValid() && Asymmetric(less) && 0 < j
      requires Rearranged(entityTypes, es0, i + 1)
      requires SortedExceptAt(TypesOf(entityTypes), i, j, less)
      requires less(entityTypes[j].typ, entityTypes[j - 1].typ)
      modifies this, entityTypes[j], entityTypes[j - 1]
      ensures RanksValid()
      ensures Tables() == old(Tables())
      ensures Rearranged(entityTypes, es0, i + 1)
      ensures SortedExceptAt(TypesOf(entityTypes), i, j - 1, less)
    {
      ghost var before := entityTypes;
      Swap(j, j - 1);
      SwapDownStep(before, es0, i, j, less);
    }

    /** The first loop of buildSchema: each declared attribute type is
        registered in order. */
    method AddDeclaredAttributes(decls: seq<AttrTypeDecl>, implements: Implements)
      returns (err: Option<BuildError>)
      requires Valid()
      modifies this
      ensures Valid()
      ensures entityTypes == old(entityTypes) && entityTypeSchemas == old(entityTypeSchemas)
      ensures AttrsExtend(old(attrs), old(attrTypes), old(attrToOrdinal))
      ensures decls == [] ==> err.None? && attrs == old(attrs) && attrToOrdinal == old(attrToOrdinal)
      ensures err.None? ==> forall d | d in decls :: d.a in attrs
      ensures err.Some? ==> exists i | 0 <= i < |decls| ::
        && (forall k | 0 <= k < i :: decls[k].a in attrs)
        && !Admits(decls[i].a, decls[i].typ, implements)
        && err.value == AttributeError(decls[i].a, decls[i].typ)
      ensures err.Some? ==> PhaseError(err.value)
      ensures err.None? ==> Register(old(attrs), old(attrTypes), decls, maxUserAttribute, implements) == Ok((attrs, attrTypes))
      ensures err.Some? ==> Register(old(attrs), old(attrTypes), decls, maxUserAttribute, implements) == Err(err.value)
    {
      var i := 0;
      while i < |decls|
        invariant 0 <= i <= |decls|
        invariant Valid()
        invariant entityTypes == old(entityTypes) && entityTypeSchemas == old(entityTypeSchemas)
        invariant AttrsExtend(old(attrs), old(attrTypes), old(attrToOrdinal))
        invariant i == 0 ==> attrs == old(attrs) && attrToOrdinal == old(attrToOrdinal)
        invariant forall k | 0 <= k < i :: decls[k].a in attrs
        invariant Register(old(attrs), old(attrTypes), decls[..i], maxUserAttribute, implements) == Ok((attrs, attrTypes))
      {
        err := AddDeclaredAttribute(decls, i, old(attrs), old(attrTypes), implements);
        if err.Some? {
          return;
        }
        i := i + 1;
      }
      PrefixWhole(decls);
      forall d | d in decls ensures d.a in attrs {
        var k :| 0 <= k < |decls| && decls[k] == d;
      }
      return None;
    }

    /** One turn of buildSchema's first loop: declaration i is registered
        after the declarations before it. */
    method AddDeclaredAttribute(decls: seq<AttrTypeDecl>, i: nat, ghost attrs0: seq<Attr>,
                                ghost attrTypes0: seq<Type>, implements: Implements)
      returns (err: Option<BuildError>)
      requires Valid() && i < |decls| && |attrs0| == |attrTypes0|
      requires forall k | 0 <= k < i :: decls[k].a in attrs
      requires Register(attrs0, attrTypes0, decls[..i], maxUserAttribute, implements) == Ok((attrs, attrTypes))
      modifies this
      ensures Valid()
      ensures entityTypes == old(entityTypes) && entityTypeSchemas == old(entityTypeSchemas)
      ensures AttrsExtend(old(attrs), old(attrTypes), old(attrToOrdinal))
      ensures err.None? ==> forall k | 0 <= k < i + 1 :: decls[k].a in attrs
      ensures err.None? ==>
        Register(attrs0, attrTypes0, decls[..i + 1], maxUserAttribute, implements) == Ok((attrs, attrTypes))
      ensures err.Some? ==>
        && (forall k | 0 <= k < i :: decls[k].a in attrs)
        && !Admits(decls[i].a, decls[i].typ, implements)
        && err.value == AttributeError(decls[i].a, decls[i].typ)
        && Register(attrs0, attrTypes0, decls, maxUserAttribute, implements) == Err(err.value)
    {
      ghost var attrs1, attrTypes1 := attrs, attrTypes;
      var res := MaybeAddAttribute(decls[i].a, decls[i].typ, implements);
      assert [AttrTypeDecl(decls[i].a, decls[i].typ)] == [decls[i]];
      if res.Err? {
        RegisterPrefixFails(attrs0, attrTypes0, decls, i, attrs1, attrTypes1, res.error, maxUserAttribute, implements);
        return Some(res.error);
      }
      RegisterPrefixThen(attrs0, attrTypes0, decls, i, attrs1, attrTypes1, attrs, attrTypes, maxUserAttribute,
                         implements);
      NamesKept(decls, i, attrs1, attrs);
      return None;
    }

    /** The second loop of buildSchema: each entity mapping adds an entity
        type, in order, to a schema that has none yet. */
    method AddEntityTypes(ems: seq<EntityMapping>, implements: Implements)
      returns (err: Option<BuildError>)
      requires Valid() && entityTypes == [] && entityTypeSchemas == map[]
      modifies this
      ensures Valid()
      ensures AttrsExtend(old(attrs), old(attrTypes), old(attrToOrdinal))
      ensures forall k | 0 <= k < |entityTypes| :: fresh(entityTypes[k])
      ensures ems == [] ==> err.None? && attrs == old(attrs) && attrToOrdinal == old(attrToOrdinal)
      ensures err.None? ==>
        && |entityTypes| == |ems|
        && entityTypeSchemas.Keys == MappedTypes(ems)
        && EntityAttrsIn(ems, attrs)
        && MadeFromEach(entityTypes, ems, attrs, attrTypes, implements)
      ensures err.Some? ==>
        && |entityTypes| < |ems|
        && MadeFromEach(entityTypes, ems[..|entityTypes|], attrs, attrTypes, implements)
        && TypeMappingRejected(ems[|entityTypes|].typ, ems[|entityTypes|].attrMappings, err.value, implements)
      ensures err.Some? ==> PhaseError(err.value)
      ensures err.None? ==>
        old(Register(attrs, attrTypes, EntityDecls(ems), maxUserAttribute, implements)) == Ok((attrs, attrTypes))
    {
      var i := 0;
      while i < |ems|
        invariant 0 <= i <= |ems|
        invariant Valid()
        invariant AttrsExtend(old(attrs), old(attrTypes), old(attrToOrdinal))
        invariant forall k | 0 <= k < |entityTypes| :: fresh(entityTypes[k])
        invariant i == 0 ==> attrs == old(attrs) && attrToOrdinal == old(attrToOrdinal)
        invariant |entityTypes| == i
        invariant entityTypeSchemas.Keys == MappedTypes(ems[..i])
        invariant EntityAttrsIn(ems[..i], attrs)
        invariant MadeFromEach(entityTypes, ems[..i], attrs, attrTypes, implements)
        invariant Register(old(attrs), old(attrTypes), EntityDecls(ems[..i]), maxUserAttribute, implements) ==
          Ok((attrs, attrTypes))
      {
        ghost var es0 := entityTypes;
        var e := AddEntityMapping(ems, i, old(attrs), old(attrTypes), implements);
        if e.Some? {
          return e;
        }
        forall k | 0 <= k < |entityTypes| ensures fresh(entityTypes[k]) {
          if k < i {
            assert entityTypes[k] == es0[k];
          }
        }
        i := i + 1;
      }
      PrefixWhole(ems);
      return None;
    }

    /** One turn of buildSchema's second loop: entity mapping i adds its
        entity type after the i entity types of the mappings before it. */
    method AddEntityMapping(ems: seq<EntityMapping>, i: nat, ghost attrs0: seq<Attr>, ghost attrTypes0: seq<Type>,
                            implements: Implements)
      returns (err: Option<BuildError>)
      requires Valid() && i < |ems| && |entityTypes| == i && |attrs0| == |attrTypes0|
      requires Register(attrs0, attrTypes0, EntityDecls(ems[..i]), maxUserAttribute, implements) == Ok((attrs, attrTypes))
      requires entityTypeSchemas.Keys == MappedTypes(ems[..i])
      requires EntityAttrsIn(ems[..i], attrs)
      requires MadeFromEach(entityTypes, ems[..i], attrs, attrTypes, implements)
      modifies this
      ensures Valid()
      ensures AttrsExtend(old(attrs), old(attrTypes), old(attrToOrdinal))
      ensures err.Some? ==>
        && entityTypes == old(entityTypes)
        && MadeFromEach(entityTypes, ems[..i], attrs, attrTypes, implements)
        && TypeMappingRejected(ems[i].typ, ems[i].attrMappings, err.value, implements)
        && PhaseError(err.value)
      ensures err.None? ==>
        && |entityTypes| == i + 1
        && entityTypes == old(entityTypes) + [entityTypes[i]]
        && fresh(entityTypes[i])
        && entityTypeSchemas.Keys == MappedTypes(ems[..i + 1])
        && EntityAttrsIn(ems[..i + 1], attrs)
        && MadeFromEach(entityTypes, ems[..i + 1], attrs, attrTypes, implements)
        && Register(attrs0, attrTypes0, EntityDecls(ems[..i + 1]), maxUserAttribute, implements) == Ok((attrs, attrTypes))
    {
      ghost var attrs1, attrTypes1, es0 := attrs, attrTypes, entityTypes;
      err := MaybeAddTypeMapping(ems[i].typ, ems[i].attrMappings, implements);
      if err.Some? {
        MadeFromEachGrows(es0, ems[..i], attrs1, attrTypes1, attrs, attrTypes, implements);
        RejectedIsPhaseError(ems[i].typ, ems[i].attrMappings, err.value, implements);
        return;
      }
      MappingAdded(es0, entityTypes[i], ems, i, attrs0, attrTypes0, attrs1, attrTypes1, attrs, attrTypes,
                   maxUserAttribute, implements);
    }

    /** The end of buildSchema's registrations: Self and Type are added
        and their ordinals recorded. */
    method AddSystemAttributes(implements: Implements) returns (err: Option<BuildError>)
      requires Valid()
      modifies this
      ensures Valid()
      ensures entityTypes == old(entityTypes) && entityTypeSchemas == old(entityTypeSchemas)
      ensures AttrsExtend(old(attrs), old(attrTypes), old(attrToOrdinal))
      ensures err.None? ==>
        && selfOrdinal < |attrs| && attrs[selfOrdinal] == SelfAttr
        && typeOrdinal < |attrs| && attrs[typeOrdinal] == TypeAttr
      ensures old(attrs) == [] && maxUserAttribute >= 2 ==> err.None?
      ensures err.Some? ==>
        || (!Admits(SelfAttr, EmptyInterfaceType, implements) && err.value == AttributeError(SelfAttr, EmptyInterfaceType))
        || (!Admits(TypeAttr, ReflectTypeType, implements) && err.value == AttributeError(TypeAttr, ReflectTypeType))
      ensures err.Some? ==> PhaseError(err.value)
      ensures old(Register(attrs, attrTypes, SystemDecls, maxUserAttribute, implements)) ==
        if err.None? then Ok((attrs, attrTypes)) else Err(err.value)
    {
      RegisterSystem(attrs, attrTypes, maxUserAttribute, implements);
      if attrs == [] && maxUserAttribute >= 2 {
        RegisterSystemEmpty(maxUserAttribute, implements);
      }
      RegisterSystem(attrs, attrTypes, maxUserAttribute, implements);
      err := AddSelfAttribute(implements);
      if err.Some? {
        return;
      }
      err := AddTypeAttribute(implements);
    }

    /** Self is registered and its ordinal recorded. */
    method AddSelfAttribute(implements: Implements) returns (err: Option<BuildError>)
      requires Valid()
      modifies this
      ensures Valid()
      ensures entityTypes == old(entityTypes) && entityTypeSchemas == old(entityTypeSchemas)
      ensures AttrsExtend(old(attrs), old(attrTypes), old(attrToOrdinal))
      ensures err.None? ==> selfOrdinal < |attrs| && attrs[selfOrdinal] == SelfAttr
      ensures err.Some? ==>
        !Admits(SelfAttr, EmptyInterfaceType, implements) && err.value == AttributeError(SelfAttr, EmptyInterfaceType)
      ensures old(Register(attrs, attrTypes, [AttrTypeDecl(SelfAttr, EmptyInterfaceType)], maxUserAttribute,
                           implements)) == if err.None? then Ok((attrs, attrTypes)) else Err(err.value)
    {
      var ord;
      err, ord := AddAndGetOrdinal(SelfAttr, EmptyInterfaceType, implements);
      if err.None? {
        selfOrdinal := ord;
      }
    }

    /** Type is registered and its ordinal recorded; the ordinal of Self
        still names Self. */
    method AddTypeAttribute(implements: Implements) returns (err: Option<BuildError>)
      requires Valid()
      modifies this
      ensures Valid()
      ensures entityTypes == old(entityTypes) && entityTypeSchemas == old(entityTypeSchemas)
      ensures AttrsExtend(old(attrs), old(attrTypes), old(attrToOrdinal))
      ensures old(selfOrdinal < |attrs| && attrs[selfOrdinal] == SelfAttr) ==>
        selfOrdinal < |attrs| && attrs[selfOrdinal] == SelfAttr
      ensures err.None? ==> typeOrdinal < |attrs| && attrs[typeOrdinal] == TypeAttr
      ensures err.Some? ==>
        !Admits(TypeAttr, ReflectTypeType, implements) && err.value == AttributeError(TypeAttr, ReflectTypeType)
      ensures old(Register(attrs, attrTypes, [AttrTypeDecl(TypeAttr, ReflectTypeType)], maxUserAttribute,
                           implements)) == if err.None? then Ok((attrs, attrTypes)) else Err(err.value)
    {
      ghost var attrs0 := attrs;
      var ord;
      err, ord := AddAndGetOrdinal(TypeAttr, ReflectTypeType, implements);
      if err.None? {
        typeOrdinal := ord;
      }
      if selfOrdinal < |attrs0| {
        assert attrs[selfOrdinal] == attrs0[selfOrdinal];
      }
    }

    /** maybeAddAttribute followed by mustGetOrdinal on the same attribute. */
    method AddAndGetOrdinal(a: Attr, typ: Type, implements: Implements)
      returns (err: Option<BuildError>, ord: nat)
      requires Valid()
      modifies this
      ensures Valid()
      ensures entityTypes == old(entityTypes) && entityTypeSchemas == old(entityTypeSchemas)
      ensures selfOrdinal == old(selfOrdinal) && typeOrdinal == old(typeOrdinal)
      ensures AttrsExtend(old(attrs), old(attrTypes), old(attrToOrdinal))
      ensures err.None? ==> ord < |attrs| && attrs[ord] == a
      ensures a !in old(attrs) && |old(attrs)| < maxUserAttribute ==>
        err.None? && attrs == old(attrs) + [a]
      ensures err.Some? ==> !Admits(a, typ, implements) && err.value == AttributeError(a, typ)
      ensures err.None? <==> old(Admits(a, typ, implements))
      ensures old(Register(attrs, attrTypes, [AttrTypeDecl(a, typ)], maxUserAttribute, implements)) ==
        if err.None? then Ok((attrs, attrTypes)) else Err(err.value)
    {
      var r := MaybeAddAttribute(a, typ, implements);
      if r.Err? {
        return Some(r.error), 0;
      }
      return None, MustGetOrdinal(a);
    }
  }

  /** Two valid schemas with the same mapped types list the same types. */
  lemma SameListedTypes(s1: Schema, s2: Schema)
    requires s1.Valid() && s2.Valid()
    requires s1.entityTypeSchemas.Keys == s2.entityTypeSchemas.Keys
    ensures forall x :: x in TypesOf(s1.entityTypes) <==> x in TypesOf(s2.entityTypes)
  {
    var ts1, ts2 := TypesOf(s1.entityTypes), TypesOf(s2.entityTypes);
    forall x ensures x in ts1 ==> x in ts2 {
      if x in ts1 {
        var k :| 0 <= k < |ts1| && ts1[k] == x;
        var m :| 0 <= m < |s2.entityTypes| && s2.entityTypes[m] == s2.entityTypeSchemas[x];
        assert ts2[m] == x;
      }
    }
    forall x ensures x in ts2 ==> x in ts1 {
      if x in ts2 {
        var m :| 0 <= m < |ts2| && ts2[m] == x;
        var k :| 0 <= k < |s1.entityTypes| && s1.entityTypes[k] == s1.entityTypeSchemas[x];
        assert ts1[k] == x;
      }
    }
  }

  /** In a valid schema whose listed types are distinct, the entity type
      mapped for t sits at the one position listing t. */
  lemma MappedAtPosition(s: Schema, t: Type, k: nat)
    requires s.Valid() && Distinct(TypesOf(s.entityTypes))
    requires t in s.entityTypeSchemas && k < |s.entityTypes| && s.entityTypes[k].typ == t
    ensures s.entityTypeSchemas[t].typID == k
  {
    var e := s.entityTypeSchemas[t];
    var m :| 0 <= m < |s.entityTypes| && s.entityTypes[m] == e;
    assert TypesOf(s.entityTypes)[m] == TypesOf(s.entityTypes)[k];
  }

  /** typID is a rank: once two schemas over the same distinct entity types
      are sorted by the same strict total order, each type has the same
      rank in both, whatever order the types were registered in. */
  lemma RankIsDeterministic(s1: Schema, s2: Schema, less: Less, t: Type)
    requires s1.Valid() && s2.Valid() && StrictTotalOrder(less)
    requires Distinct(TypesOf(s1.entityTypes)) && Distinct(TypesOf(s2.entityTypes))
    requires AdjacentSorted(TypesOf(s1.entityTypes), less)
    requires AdjacentSorted(TypesOf(s2.entityTypes), less)
    requires s1.entityTypeSchemas.Keys == s2.entityTypeSchemas.Keys
    requires t in s1.entityTypeSchemas
    ensures s1.entityTypeSchemas[t].typID == s2.entityTypeSchemas[t].typID
  {
    var ts1, ts2 := TypesOf(s1.entityTypes), TypesOf(s2.entityTypes);
    AdjacentSortedIsSorted(ts1, less);
    AdjacentSortedIsSorted(ts2, less);
    SameListedTypes(s1, s2);
    SortedIsUnique(ts1, ts2, less);
    var k :| 0 <= k < |s1.entityTypes| && s1.entityTypes[k] == s1.entityTypeSchemas[t];
    assert ts2[k] == ts1[k] == t;
    MappedAtPosition(s1, t, k);
    MappedAtPosition(s2, t, k);
  }

  /** What the registration phases of buildSchema establish: the
      attribute table is the one the declarations register, Self and Type
      are in it, and there is one entity type per mapping. */
  ghost predicate Registered(s: Schema, name: string, m: SchemaMappings, maxUserAttribute: nat,
                             implements: Implements)
    reads s, s.entityTypes
  {
    && s.Valid()
    && s.name == name && s.maxUserAttribute == maxUserAttribute
    && s.selfOrdinal < |s.attrs| && s.attrs[s.selfOrdinal] == SelfAttr
    && s.typeOrdinal < |s.attrs| && s.attrs[s.typeOrdinal] == TypeAttr
    && (forall d | d in m.attrTypes :: d.a in s.attrs)
    && EntityAttrsIn(m.entityMappings, s.attrs)
    && |s.entityTypes| == |m.entityMappings|
    && s.entityTypeSchemas.Keys == MappedTypes(m.entityMappings)
    && Register([], [], BuildDecls(m), maxUserAttribute, implements) == Ok((s.attrs, s.attrTypes))
  }

  /** What a successful buildSchema returns: the registered table; one
      entity type per entity mapping, each made for one of them and each
      mapping having one made for it; and the entity types sorted by less. */
  ghost predicate Built(s: Schema, name: string, m: SchemaMappings, maxUserAttribute: nat,
                        implements: Implements, less: Less)
    reads s, s.entityTypes
  {
    && Registered(s, name, m, maxUserAttribute, implements)
    && AdjacentSorted(TypesOf(s.entityTypes[..s.Len()]), less)
    && MadeForMappings(s.entityTypes, m.entityMappings, s.attrs, s.attrTypes, implements)
  }

  /** The three registering phases of buildSchema together register
      BuildDecls(m) into an empty table. */
  lemma RegisterPhases(m: SchemaMappings, attrs1: seq<Attr>, attrTypes1: seq<Type>, attrs2: seq<Attr>,
                       attrTypes2: seq<Type>, attrs3: seq<Attr>, attrTypes3: seq<Type>, maxUserAttribute: nat,
                       implements: Implements)
    requires |attrs1| == |attrTypes1| && |attrs2| == |attrTypes2|
    requires Register([], [], m.attrTypes, maxUserAttribute, implements) == Ok((attrs1, attrTypes1))
    requires Register(attrs1, attrTypes1, EntityDecls(m.entityMappings), maxUserAttribute, implements) ==
      Ok((attrs2, attrTypes2))
    requires Register(attrs2, attrTypes2, SystemDecls, maxUserAttribute, implements) == Ok((attrs3, attrTypes3))
    ensures Register([], [], BuildDecls(m), maxUserAttribute, implements) == Ok((attrs3, attrTypes3))
  {
    RegisterThen([], [], m.attrTypes, attrs1, attrTypes1, EntityDecls(m.entityMappings), attrs2, attrTypes2,
                 maxUserAttribute, implements);
    RegisterThen([], [], m.attrTypes + EntityDecls(m.entityMappings), attrs2, attrTypes2, SystemDecls,
                 attrs3, attrTypes3, maxUserAttribute, implements);
  }

  /** The attribute table buildSchema leaves holds the declared
      attributes, then the new ones the entity mappings name, then Self
      and Type, each in the order of its first declaration. */
  lemma BuildTableOrder(m: SchemaMappings, attrs: seq<Attr>, attrTypes: seq<Type>, maxUserAttribute: nat,
                        implements: Implements)
    requires Register([], [], BuildDecls(m), maxUserAttribute, implements) == Ok((attrs, attrTypes))
    ensures var declared := NewAttrs([], m.attrTypes);
      var mapped := NewAttrs(declared, EntityDecls(m.entityMappings));
      attrs == declared + mapped + NewAttrs(declared + mapped, SystemDecls)
  {
    var ds := BuildDecls(m);
    RegisterTable([], [], ds, maxUserAttribute, implements);
    var registered := m.attrTypes + EntityDecls(m.entityMappings);
    var declared := NewAttrs([], m.attrTypes);
    var mapped := NewAttrs(declared, EntityDecls(m.entityMappings));
    NewAttrsAppend([], m.attrTypes, EntityDecls(m.entityMappings));
    assert [] + declared == declared;
    assert NewAttrs([], registered) == declared + mapped;
    NewAttrsAppend([], registered, SystemDecls);
    assert [] + (declared + mapped) == declared + mapped;
  }

  /** In the attribute table buildSchema leaves, every declaration, and so
      every declared attribute type, checks against the type its attribute
      was registered with, which for each attribute is the type of its
      first declaration. */
  lemma BuildTableTypes(m: SchemaMappings, attrs: seq<Attr>, attrTypes: seq<Type>, maxUserAttribute: nat,
                        implements: Implements)
    requires Register([], [], BuildDecls(m), maxUserAttribute, implements) == Ok((attrs, attrTypes))
    ensures forall d | d in m.attrTypes :: Declares(attrs, attrTypes, d, implements)
    ensures var ds := BuildDecls(m);
      forall k | 0 <= k < |ds| :: Declares(attrs, attrTypes, ds[k], implements)
    ensures var ds := BuildDecls(m);
      forall k | 0 <= k < |ds| && ds[k].a !in Names(ds[..k]) :: attrTypes[IndexOf(attrs, ds[k].a)] == ds[k].typ
  {
    var ds := BuildDecls(m);
    RegisterDeclares([], [], ds, maxUserAttribute, implements);
    forall d | d in m.attrTypes ensures Declares(attrs, attrTypes, d, implements) {
      var k :| 0 <= k < |m.attrTypes| && m.attrTypes[k] == d;
      assert ds[k] == d;
    }
  }

  /** The attribute table of a built schema, as BuildTableOrder and
      BuildTableTypes describe it. */
  lemma BuiltAttributes(s: Schema, name: string, m: SchemaMappings, maxUserAttribute: nat,
                        implements: Implements, less: Less)
    requires Built(s, name, m, maxUserAttribute, implements, less)
    ensures var declared := NewAttrs([], m.attrTypes);
      var mapped := NewAttrs(declared, EntityDecls(m.entityMappings));
      s.attrs == declared + mapped + NewAttrs(declared + mapped, SystemDecls)
    ensures forall d | d in m.attrTypes :: Declares(s.attrs, s.attrTypes, d, implements)
  {
    BuildTableOrder(m, s.attrs, s.attrTypes, maxUserAttribute, implements);
    BuildTableTypes(m, s.attrs, s.attrTypes, maxUserAttribute, implements);
  }

  /** The errors a build phase reports: never a wrapped one. */
  predicate PhaseError(e: BuildError) {
    !e.FailedToConstruct?
  }


  /** The three phases of buildSchema: registers the declared attribute
      types, then each entity type's mappings, then Self and Type. */
  method BuildUnsorted(name: string, m: SchemaMappings, maxUserAttribute: nat, implements: Implements)
    returns (r: Result<Schema, BuildError>)
    ensures r.Ok? ==> fresh(r.value) && Registered(r.value, name, m, maxUserAttribute, implements)
    ensures r.Ok? ==>
      MadeFromEach(r.value.entityTypes, m.entityMappings, r.value.attrs, r.value.attrTypes, implements)
    ensures r.Ok? ==> forall k | 0 <= k < |r.value.entityTypes| :: fresh(r.value.entityTypes[k])
    ensures r.Err? ==> PhaseError(r.error)
    ensures m.attrTypes == [] && m.entityMappings == [] && maxUserAttribute >= 2 ==> r.Ok?
    ensures Register([], [], m.attrTypes, maxUserAttribute, implements).Err? ==>
      r == Err(Register([], [], m.attrTypes, maxUserAttribute, implements).error)
  {
    var sb := new Schema(name, maxUserAttribute);
    var err := sb.AddDeclaredAttributes(m.attrTypes, implements);
    if err.Some? {
      return Err(err.value);
    }
    ghost var attrs1, attrTypes1 := sb.attrs, sb.attrTypes;
    assert Register([], [], m.attrTypes, maxUserAttribute, implements) == Ok((attrs1, attrTypes1));
    err := sb.AddEntityTypes(m.entityMappings, implements);
    if err.Some? {
      return Err(err.value);
    }
    ghost var attrs2, attrTypes2 := sb.attrs, sb.attrTypes;
    err := sb.AddSystemAttributes(implements);
    if err.Some? {
      return Err(err.value);
    }
    RegisterPhases(m, attrs1, attrTypes1, attrs2, attrTypes2, sb.attrs, sb.attrTypes, maxUserAttribute, implements);
    PrefixElements(attrs1, sb.attrs);
    EntityAttrsGrow(m.entityMappings, attrs2, sb.attrs);
    MadeFromEachGrows(sb.entityTypes, m.entityMappings, attrs2, attrTypes2, sb.attrs, sb.attrTypes, implements);
    return Ok(sb);
  }

  /** buildSchema: the three registration phases, then the entity types
      sorted. */
  method BuildSchema(name: string, m: SchemaMappings, maxUserAttribute: nat,
                     implements: Implements, less: Less)
    returns (r: Result<Schema, BuildError>)
    requires Asymmetric(less)
    ensures r.Ok? ==> fresh(r.value) && Built(r.value, name, m, maxUserAttribute, implements, less)
    ensures r.Err? ==> PhaseError(r.error)
    ensures m.attrTypes == [] && m.entityMappings == [] && maxUserAttribute >= 2 ==> r.Ok?
    ensures Register([], [], m.attrTypes, maxUserAttribute, implements).Err? ==>
      r == Err(Register([], [], m.attrTypes, maxUserAttribute, implements).error)
  {
    var unsorted := BuildUnsorted(name, m, maxUserAttribute, implements);
    if unsorted.Err? {
      return Err(unsorted.error);
    }
    var sb := unsorted.value;
    ghost var es0 := sb.entityTypes;
    sb.SortEntityTypes(less);
    MadeFromPermuted(es0, sb.entityTypes, m.entityMappings, sb.attrs, sb.attrTypes, implements);
    return Ok(sb);
  }

  /** NewSchema: buildSchema with its failure reported as an error that
      wraps the cause. */
  method NewSchema(name: string, m: SchemaMappings, maxUserAttribute: nat,
                   implements: Implements, less: Less)
    returns (r: Result<Schema, BuildError>)
    requires Asymmetric(less)
    ensures r.Ok? ==> fresh(r.value) && Built(r.value, name, m, maxUserAttribute, implements, less)
    ensures r.Err? ==> r.error.FailedToConstruct? && PhaseError(r.error.cause)
    ensures m.attrTypes == [] && m.entityMappings == [] && maxUserAttribute >= 2 ==> r.Ok?
  {
    var built := BuildSchema(name, m, maxUserAttribute, implements, less);
    match built
    case Ok(s) => return Ok(s);
    case Err(e) => return Err(FailedToConstruct(e));
  }
}
