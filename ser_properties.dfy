/**
 * What the serializer's output is guaranteed to look like: which values it
 * accepts, that its brackets always nest, where the implicit root key comes
 * from, and what the root-key override leaves at the front.
 */
module SerProperties {
  import opened Wrappers
  import opened NaiveTokens
  import opened Decimal
  import opened Ser

  /** A token that is not a bracket leaves the open-bracket stack as it is. */
  lemma NestSkipsStr(t: NaiveToken, rest: seq<NaiveToken>, open: seq<NaiveToken>)
    requires t.Str? || t.Null?
    ensures Nest([t] + rest, open) == Nest(rest, open)
  {
    assert ([t] + rest)[0] == t && ([t] + rest)[1..] == rest;
  }

  /** `open` + a body that nests + the matching `close` nests. */
  lemma EnclosedNests(o: NaiveToken, body: seq<NaiveToken>, c: NaiveToken, open: seq<NaiveToken>)
    requires (o, c) == (SeqBegin, SeqEnd) || (o, c) == (ObjBegin, ObjEnd)
    requires Nest(body, open + [o]) == Some(open + [o])
    ensures Nest([o] + body + [c], open) == Some(open)
  {
    var ts := [o] + body + [c];
    assert ts[0] == o && ts[1..] == body + [c];
    NestConcat(body, [c], open + [o]);
    assert (open + [o])[..|open|] == open;
    assert [c][1..] == [];
  }

  /** The tokens of every value the serializer accepts open and close their brackets in matching pairs. */
  lemma {:induction false} EncodeNests(v: Value, atRoot: bool, open: seq<NaiveToken>)
    requires Encode(v, atRoot).Ok?
    ensures Nest(Encode(v, atRoot).value, open) == Some(open)
    decreases v
  {
    match v
    case SomeValue(x) => EncodeNests(x, atRoot, open);
    case NewtypeStruct(_, x) => EncodeNests(x, atRoot, open);
    case Seq(es) =>
      ElementsNest(es, open + [SeqBegin]);
      EnclosedNests(SeqBegin, EncodeElements(es).value, SeqEnd, open);
    case Tuple(es) =>
      ElementsNest(es, open + [SeqBegin]);
      EnclosedNests(SeqBegin, EncodeElements(es).value, SeqEnd, open);
    case TupleStruct(_, es) =>
      ElementsNest(es, open + [SeqBegin]);
      EnclosedNests(SeqBegin, EncodeElements(es).value, SeqEnd, open);
    case Map(es) =>
      EntriesNest(es, open + [ObjBegin]);
      EnclosedNests(ObjBegin, EncodeEntries(es).value, ObjEnd, open);
    case Struct(name, fs) =>
      FieldsNest(fs, open + [ObjBegin]);
      var obj := [ObjBegin] + EncodeFields(fs).value + [ObjEnd];
      EnclosedNests(ObjBegin, EncodeFields(fs).value, ObjEnd, open);
      if atRoot {
        NestSkipsStr(Str(name), obj, open);
      } else {
        assert Encode(v, atRoot).value == obj;
      }
    case Bool(_) => NestSkipsStr(Encode(v, atRoot).value[0], [], open);
    case Integer(_, _) => NestSkipsStr(Encode(v, atRoot).value[0], [], open);
    case Float32(_) => NestSkipsStr(Encode(v, atRoot).value[0], [], open);
    case Float64(_) => NestSkipsStr(Encode(v, atRoot).value[0], [], open);
    case Char(_) => NestSkipsStr(Encode(v, atRoot).value[0], [], open);
    case Text(_) => NestSkipsStr(Encode(v, atRoot).value[0], [], open);
    case NoneValue => NestSkipsStr(Null, [], open);
    case UnitVariant(_, _, _) => NestSkipsStr(Encode(v, atRoot).value[0], [], open);
  }

  lemma {:induction false} ElementsNest(es: seq<Value>, open: seq<NaiveToken>)
    requires EncodeElements(es).Ok?
    ensures Nest(EncodeElements(es).value, open) == Some(open)
    decreases es
  {
    if es != [] {
      var head := Encode(es[0], false).value;
      EncodeNests(es[0], false, open);
      ElementsNest(es[1..], open);
      NestConcat(head, EncodeElements(es[1..]).value, open);
    }
  }

  lemma {:induction false} EntryNests(e: Entry, open: seq<NaiveToken>)
    requires EncodeEntry(e).Ok?
    ensures Nest(EncodeEntry(e).value, open) == Some(open)
    decreases e
  {
    EncodeNests(e.key, false, open);
    EncodeNests(e.value, false, open);
    NestConcat(Encode(e.key, false).value, Encode(e.value, false).value, open);
  }

  lemma {:induction false} EntriesNest(es: seq<Entry>, open: seq<NaiveToken>)
    requires EncodeEntries(es).Ok?
    ensures Nest(EncodeEntries(es).value, open) == Some(open)
    decreases es
  {
    if es != [] {
      EntryNests(es[0], open);
      EntriesNest(es[1..], open);
      NestConcat(EncodeEntry(es[0]).value, EncodeEntries(es[1..]).value, open);
    }
  }

  lemma {:induction false} FieldNests(f: Field, open: seq<NaiveToken>)
    requires EncodeField(f).Ok?
    ensures Nest(EncodeField(f).value, open) == Some(open)
    decreases f
  {
    EncodeNests(f.value, false, open);
    NestSkipsStr(Str(f.key), Encode(f.value, false).value, open);
  }

  lemma {:induction false} FieldsNest(fs: seq<Field>, open: seq<NaiveToken>)
    requires EncodeFields(fs).Ok?
    ensures Nest(EncodeFields(fs).value, open) == Some(open)
    decreases fs
  {
    if fs != [] {
      FieldNests(fs[0], open);
      FieldsNest(fs[1..], open);
      NestConcat(EncodeField(fs[0]).value, EncodeFields(fs[1..]).value, open);
    }
  }

  /** The serializer accepts a value exactly when nothing inside it is of a shape it rejects. */
  lemma {:induction false} EncodeSucceedsIffRepresentable(v: Value, atRoot: bool)
    ensures Encode(v, atRoot).Ok? <==> Representable(v)
    decreases v
  {
    match v
    case SomeValue(x) => EncodeSucceedsIffRepresentable(x, atRoot);
    case NewtypeStruct(_, x) => EncodeSucceedsIffRepresentable(x, atRoot);
    case Seq(es) =>
      ElementsSucceed(es);
      assert Encode(v, atRoot).Ok? <==> EncodeElements(es).Ok?;
    case Tuple(es) =>
      ElementsSucceed(es);
      assert Encode(v, atRoot).Ok? <==> EncodeElements(es).Ok?;
    case TupleStruct(_, es) =>
      ElementsSucceed(es);
      assert Encode(v, atRoot).Ok? <==> EncodeElements(es).Ok?;
    case Map(es) =>
      EntriesSucceed(es);
      assert Encode(v, atRoot).Ok? <==> EncodeEntries(es).Ok?;
    case Struct(_, fs) =>
      FieldsSucceed(fs);
      assert Encode(v, atRoot).Ok? <==> EncodeFields(fs).Ok?;
    case _ => LeafSucceedsIffRepresentable(v, atRoot);
  }

  lemma LeafSucceedsIffRepresentable(v: Value, atRoot: bool)
    requires !Compound(v)
    ensures Encode(v, atRoot).Ok? <==> Representable(v)
  {
  }

  lemma {:induction false} ElementsSucceed(es: seq<Value>)
    ensures EncodeElements(es).Ok? <==> forall i :: 0 <= i < |es| ==> Representable(es[i])
    decreases es
  {
    if es != [] {
      EncodeSucceedsIffRepresentable(es[0], false);
      ElementsSucceed(es[1..]);
      assert forall i :: 1 <= i < |es| ==> es[i] == es[1..][i - 1];
    }
  }

  lemma {:induction false} EntrySucceeds(e: Entry)
    ensures EncodeEntry(e).Ok? <==> Representable(e.key) && Representable(e.value)
    decreases e
  {
    EncodeSucceedsIffRepresentable(e.key, false);
    EncodeSucceedsIffRepresentable(e.value, false);
  }

  lemma {:induction false} EntriesSucceed(es: seq<Entry>)
    ensures EncodeEntries(es).Ok? <==>
      forall i :: 0 <= i < |es| ==> Representable(es[i].key) && Representable(es[i].value)
    decreases es
  {
    if es != [] {
      EntrySucceeds(es[0]);
      EntriesSucceed(es[1..]);
      assert forall i :: 1 <= i < |es| ==> es[i] == es[1..][i - 1];
    }
  }

  lemma {:induction false} FieldsSucceed(fs: seq<Field>)
    ensures EncodeFields(fs).Ok? <==> forall i :: 0 <= i < |fs| ==> Representable(fs[i].value)
    decreases fs
  {
    if fs != [] {
      EncodeSucceedsIffRepresentable(fs[0].value, false);
      FieldsSucceed(fs[1..]);
      assert forall i :: 1 <= i < |fs| ==> fs[i] == fs[1..][i - 1];
    }
  }

  /**
   * On an empty buffer the only extra token is the implicit root key: the
   * name of the outermost struct under `Some` and newtype wrappers, in front
   * of what the same value gives anywhere else.
   */
  lemma {:induction false} RootNameIsImplicitKey(v: Value)
    ensures ImplicitKey(v).None? ==> Encode(v, true) == Encode(v, false)
    ensures ImplicitKey(v).Some? ==> Encode(v, true) == After([Str(ImplicitKey(v).value)], Encode(v, false))
    decreases v
  {
    match v
    case SomeValue(x) => RootNameIsImplicitKey(x);
    case NewtypeStruct(_, x) => RootNameIsImplicitKey(x);
    case Struct(_, fs) => AfterNothing(Enclose(ObjBegin, EncodeFields(fs), ObjEnd));
    case _ =>
  }

  /**
   * Only a scalar-like value starts with a `Str` and stops there; a longer
   * output that starts with a `Str` is a root struct, and its name is
   * followed by `ObjBegin`.
   */
  lemma {:induction false} LeadingStr(v: Value, atRoot: bool)
    requires Encode(v, atRoot).Ok? && Encode(v, atRoot).value[0].Str?
    ensures |Encode(v, atRoot).value| == 1 ||
            (atRoot && ImplicitKey(v).Some? && Encode(v, atRoot).value[1] == ObjBegin)
    decreases v
  {
    match v
    case SomeValue(x) => LeadingStr(x, atRoot);
    case NewtypeStruct(_, x) => LeadingStr(x, atRoot);
    case Struct(_, _) =>
    case _ =>
  }

  /** Str is neutral to nesting, so the root-key override keeps the brackets matched. */
  lemma KeyOverrideKeepsNesting(ts: seq<NaiveToken>, maybeKey: Option<string>, open: seq<NaiveToken>)
    ensures Nest(WithRootKey(ts, maybeKey), open) == Nest(ts, open)
  {
    if maybeKey.Some? && ts != [] {
      var key := maybeKey.value;
      if ts[0].Str? {
        assert WithRootKey(ts, maybeKey) == [Str(key)] + ts[1..];
        assert ts == [ts[0]] + ts[1..];
        NestSkipsStr(ts[0], ts[1..], open);
      }
      NestSkipsStr(Str(key), if ts[0].Str? then ts[1..] else ts, open);
    }
  }

  /**
   * With an explicit key, every successful encode begins with exactly one
   * key token, that key, and its brackets stay matched.
   */
  lemma DocumentStartsWithOneKey(v: Value, key: string)
    requires Encode(v, true).Ok?
    ensures var doc := WithRootKey(Encode(v, true).value, Some(key));
      doc[0] == Str(key) && (|doc| > 1 ==> !doc[1].Str?) && Balanced(doc)
  {
    var ts := Encode(v, true).value;
    if ts[0].Str? {
      LeadingStr(v, true);
    }
    EncodeNests(v, true, []);
    KeyOverrideKeepsNesting(ts, Some(key), []);
  }

  /** A leading name followed by a successful rest is swapped for the key. */
  lemma KeyReplacesLeadingName(name: string, rest: Result<seq<NaiveToken>, Error>, key: string)
    requires After([Str(name)], rest).Ok?
    ensures rest.Ok? && WithRootKey(After([Str(name)], rest).value, Some(key)) == [Str(key)] + rest.value
  {
    assert ([Str(name)] + rest.value)[1..] == rest.value;
  }

  /** An explicit key takes the place of a root struct's name; nothing else changes. */
  lemma RootKeyReplacesStructName(v: Value, key: string)
    requires ImplicitKey(v).Some? && Encode(v, true).Ok?
    ensures Encode(v, false).Ok? &&
      WithRootKey(Encode(v, true).value, Some(key)) == [Str(key)] + Encode(v, false).value
  {
    RootNameIsImplicitKey(v);
    KeyReplacesLeadingName(ImplicitKey(v).value, Encode(v, false), key);
  }

  /**
   * A top-level integer is a single `Str`, so the override treats it as a key
   * and replaces it: its text is not in the result.
   */
  lemma TopLevelScalarReplacedByKey(w: IntWidth, n: int, key: string)
    ensures Encode(Integer(w, n), true) == Ok([Str(ToDecimal(n))])
    ensures WithRootKey(Encode(Integer(w, n), true).value, Some(key)) == [Str(key)]
  {
  }

  /**
   * Scalars become one `Str`: a bool through its `i8` cast as `1` or `0`,
   * an integer of any width as text that reads back as the same integer, a
   * char as itself, a finite float as its text, while a non-finite one fails.
   */
  lemma ScalarTokens(v: Value, atRoot: bool)
    ensures v.Bool? ==> Encode(v, atRoot) == Ok([Str(if v.b then "1" else "0")])
    ensures v.Integer? ==>
      Encode(v, atRoot).Ok? && |Encode(v, atRoot).value| == 1 && Encode(v, atRoot).value[0].Str? &&
      FromDecimal(Encode(v, atRoot).value[0].s) == v.n
    ensures v.Char? ==> Encode(v, atRoot) == Ok([Str([v.c])])
    ensures v.Float32? ==> Encode(v, atRoot) == if v.f.finite then Ok([Str(v.f.text)]) else Err(NonFiniteFloat(v.f))
  {
    if v.Integer? {
      DecimalRoundTrip(v.n);
    }
  }

  /** The implicit key of a root struct, then its fields in declaration order. */
  lemma StructExample()
    ensures Encode(Struct("root", [Field("a", Integer(I32, 1)), Field("b", Bool(true))]), true)
         == Ok([Str("root"), ObjBegin, Str("a"), Str("1"), Str("b"), Str("1"), ObjEnd])
  {
    assert ToDecimal(1) == "1";
    var fields := [Field("a", Integer(I32, 1)), Field("b", Bool(true))];
    assert Encode(Integer(I32, 1), false) == Ok([Str("1")]);
    assert Encode(Bool(true), false) == Ok([Str("1")]);
    assert [Str("a")] + [Str("1")] == [Str("a"), Str("1")];
    assert [Str("b")] + [Str("1")] == [Str("b"), Str("1")];
    assert EncodeField(fields[0]) == Ok([Str("a"), Str("1")]);
    assert EncodeField(fields[1]) == Ok([Str("b"), Str("1")]);
    assert fields[1..][1..] == [];
    assert [Str("b"), Str("1")] + [] == [Str("b"), Str("1")];
    assert EncodeFields(fields[1..]) == Ok([Str("b"), Str("1")]);
    var body := [Str("a"), Str("1"), Str("b"), Str("1")];
    assert [Str("a"), Str("1")] + [Str("b"), Str("1")] == body;
    assert EncodeFields(fields) == Ok(body);
    assert [Str("root")] + ([ObjBegin] + body + [ObjEnd])
        == [Str("root"), ObjBegin, Str("a"), Str("1"), Str("b"), Str("1"), ObjEnd];
  }

  /** Nested sequences pass through the serializer; it is the builder that rejects them. */
  lemma NestedSequenceExample()
    ensures Encode(Seq([Seq([])]), false) == Ok([SeqBegin, SeqBegin, SeqEnd, SeqEnd])
  {
    assert [SeqBegin] + [] + [SeqEnd] == [SeqBegin, SeqEnd];
    assert Encode(Seq([]), false) == Ok([SeqBegin, SeqEnd]);
    assert [Seq([])][1..] == [];
    assert [SeqBegin, SeqEnd] + [] == [SeqBegin, SeqEnd];
    assert EncodeElements([Seq([])]) == Ok([SeqBegin, SeqEnd]);
    assert [SeqBegin] + [SeqBegin, SeqEnd] + [SeqEnd] == [SeqBegin, SeqBegin, SeqEnd, SeqEnd];
  }
}
