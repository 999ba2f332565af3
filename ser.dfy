/**
 * The serializer of keyvalues-serde: it walks a host value and appends flat
 * tokens to one growing buffer, then patches the root key in front of the
 * buffer and hands it to the stream-to-`Vdf` builder.
 *
 * serde's trait dispatch is replaced by `Value`, a datatype with one
 * constructor per shape the serializer is asked to handle.
 */
module Ser {
  import opened Wrappers
  import opened NaiveTokens
  import opened Decimal
  import ParserError

  datatype IntWidth = I8 | I16 | I32 | I64 | I128 | U8 | U16 | U32 | U64 | U128

  /** A 32-bit float, kept abstract: whether it is finite, and the text `to_string` gives it. */
  datatype F32 = F32(finite: bool, text: string)

  /** A host value, as serde presents it to the serializer. */
  datatype Value =
    | Bool(b: bool)
    | Integer(width: IntWidth, n: int)
    | Float32(f: F32)
      /** An `f64`, carried as the `f32` its `as f32` cast yields. */
    | Float64(narrowed: F32)
    | Char(c: char)
    | Text(s: string)
    | Bytes(bytes: seq<bv8>)
    | NoneValue
    | SomeValue(inner: Value)
    | Unit
    | UnitStruct(name: string)
    | UnitVariant(name: string, index: nat, variant: string)
    | NewtypeStruct(name: string, inner: Value)
    | NewtypeVariant(name: string, index: nat, variant: string, inner: Value)
    | Seq(elements: seq<Value>)
    | Tuple(elements: seq<Value>)
    | TupleStruct(name: string, elements: seq<Value>)
    | TupleVariant(name: string, index: nat, variant: string, elements: seq<Value>)
    | Map(entries: seq<Entry>)
    | Struct(name: string, fields: seq<Field>)
    | StructVariant(name: string, index: nat, variant: string, fields: seq<Field>)

  /** One map entry, in the order the map yields it. */
  datatype Entry = Entry(key: Value, value: Value)

  /** One struct field: its static name and its value. */
  datatype Field = Field(key: string, value: Value)

  /** The errors the encode path raises. */
  datatype Error =
    | Unsupported(shape: string)
    | NonFiniteFloat(float: F32)
    | InvalidTokenStream(context: ParserError.TokenContext)

  /** Rust's `bool as i8`. */
  function BoolAsI8(b: bool): int {
    if b then 1 else 0
  }

  /** `acc` followed by the tokens of `r`, or `r`'s error. */
  function After(acc: seq<NaiveToken>, r: Result<seq<NaiveToken>, Error>): Result<seq<NaiveToken>, Error> {
    match r
    case Ok(ts) => Ok(acc + ts)
    case Err(e) => Err(e)
  }

  lemma AfterNothing(r: Result<seq<NaiveToken>, Error>)
    ensures After([], r) == r
  {
    if r.Ok? {
      assert [] + r.value == r.value;
    }
  }

  lemma AfterAfter(a: seq<NaiveToken>, b: seq<NaiveToken>, r: Result<seq<NaiveToken>, Error>)
    ensures After(a, After(b, r)) == After(a + b, r)
  {
    if r.Ok? {
      assert a + (b + r.value) == (a + b) + r.value;
    }
  }

  /** A bracketed region: `open`, the body's tokens, `close`; or the body's error. */
  function Enclose(open: NaiveToken, body: Result<seq<NaiveToken>, Error>, close: NaiveToken): Result<seq<NaiveToken>, Error> {
    match body
    case Ok(ts) => Ok([open] + ts + [close])
    case Err(e) => Err(e)
  }

  function EncodeF32(f: F32): Result<seq<NaiveToken>, Error> {
    if f.finite then Ok([Str(f.text)]) else Err(NonFiniteFloat(f))
  }

  /**
   * The tokens the serializer appends for `v`, or the first error it meets.
   * `atRoot` says whether the buffer is still empty when `v` is reached: only
   * then does a struct emit its own name as the implicit root key.
   */
  function Encode(v: Value, atRoot: bool): (r: Result<seq<NaiveToken>, Error>)
    ensures r.Ok? ==> |r.value| > 0
    ensures r.Err? ==> r.error.Unsupported? || r.error.NonFiniteFloat?
    decreases v
  {
    match v
    case Bool(b) => Ok([Str(ToDecimal(BoolAsI8(b)))])
    case Integer(_, n) => Ok([Str(ToDecimal(n))])
    case Float32(f) => EncodeF32(f)
    case Float64(f) => EncodeF32(f)
    case Char(c) => Ok([Str([c])])
    case Text(s) => Ok([Str(s)])
    case Bytes(_) => Err(Unsupported("Bytes"))
    case NoneValue => Ok([Null])
    case SomeValue(x) => Encode(x, atRoot)
    case Unit => Err(Unsupported("Unit Type"))
    case UnitStruct(_) => Err(Unsupported("Unit Struct"))
    case UnitVariant(_, _, variant) => Ok([Str(variant)])
    case NewtypeStruct(_, x) => Encode(x, atRoot)
    case NewtypeVariant(_, _, _, _) => Err(Unsupported("Enum Newtype Variant"))
    case Seq(es) => Enclose(SeqBegin, EncodeElements(es), SeqEnd)
    case Tuple(es) => Enclose(SeqBegin, EncodeElements(es), SeqEnd)
    case TupleStruct(_, es) => Enclose(SeqBegin, EncodeElements(es), SeqEnd)
    case TupleVariant(_, _, _, _) => Err(Unsupported("Enum Tuple Variant"))
    case Map(es) => Enclose(ObjBegin, EncodeEntries(es), ObjEnd)
    case Struct(name, fs) =>
      After(if atRoot then [Str(name)] else [], Enclose(ObjBegin, EncodeFields(fs), ObjEnd))
    case StructVariant(_, _, _, _) => Err(Unsupported("Enum Struct Variant"))
  }

  /** The elements of a sequence, tuple or tuple struct, in order. */
  function EncodeElements(es: seq<Value>): (r: Result<seq<NaiveToken>, Error>)
    ensures r.Err? ==> r.error.Unsupported? || r.error.NonFiniteFloat?
    decreases es
  {
    if es == [] then Ok([])
    else match Encode(es[0], false)
      case Err(e) => Err(e)
      case Ok(head) => After(head, EncodeElements(es[1..]))
  }

  /** A map entry: the key's tokens, then the value's. */
  function EncodeEntry(e: Entry): (r: Result<seq<NaiveToken>, Error>)
    ensures r.Err? ==> r.error.Unsupported? || r.error.NonFiniteFloat?
    decreases e
  {
    match Encode(e.key, false)
    case Err(err) => Err(err)
    case Ok(key) => After(key, Encode(e.value, false))
  }

  function EncodeEntries(es: seq<Entry>): (r: Result<seq<NaiveToken>, Error>)
    ensures r.Err? ==> r.error.Unsupported? || r.error.NonFiniteFloat?
    decreases es
  {
    if es == [] then Ok([])
    else match EncodeEntry(es[0])
      case Err(e) => Err(e)
      case Ok(head) => After(head, EncodeEntries(es[1..]))
  }

  /** A struct field: its name as a `Str`, then the value's tokens. */
  function EncodeField(f: Field): (r: Result<seq<NaiveToken>, Error>)
    ensures r.Err? ==> r.error.Unsupported? || r.error.NonFiniteFloat?
    decreases f
  {
    After([Str(f.key)], Encode(f.value, false))
  }

  function EncodeFields(fs: seq<Field>): (r: Result<seq<NaiveToken>, Error>)
    ensures r.Err? ==> r.error.Unsupported? || r.error.NonFiniteFloat?
    decreases fs
  {
    if fs == [] then Ok([])
    else match EncodeField(fs[0])
      case Err(e) => Err(e)
      case Ok(head) => After(head, EncodeFields(fs[1..]))
  }

  /**
   * The values the serializer accepts: no byte strings, no unit or unit
   * struct, no enum variant with a payload and no non-finite float, anywhere
   * inside.
   */
  predicate Representable(v: Value)
    decreases v
  {
    match v
    case Float32(f) => f.finite
    case Float64(f) => f.finite
    case Bytes(_) => false
    case Unit => false
    case UnitStruct(_) => false
    case NewtypeVariant(_, _, _, _) => false
    case TupleVariant(_, _, _, _) => false
    case StructVariant(_, _, _, _) => false
    case SomeValue(x) => Representable(x)
    case NewtypeStruct(_, x) => Representable(x)
    case Seq(es) => forall i :: 0 <= i < |es| ==> Representable(es[i])
    case Tuple(es) => forall i :: 0 <= i < |es| ==> Representable(es[i])
    case TupleStruct(_, es) => forall i :: 0 <= i < |es| ==> Representable(es[i])
    case Map(es) => forall i :: 0 <= i < |es| ==> Representable(es[i].key) && Representable(es[i].value)
    case Struct(_, fs) => forall i :: 0 <= i < |fs| ==> Representable(fs[i].value)
    case _ => true
  }

  /** The shapes that wrap or contain other values. */
  predicate Compound(v: Value) {
    v.SomeValue? || v.NewtypeStruct? || v.Seq? || v.Tuple? || v.TupleStruct? || v.Map? || v.Struct?
  }

  /** The struct name that becomes the implicit root key: the outermost struct under `Some` and newtype wrappers. */
  function ImplicitKey(v: Value): Option<string>
    decreases v
  {
    match v
    case Struct(name, _) => Some(name)
    case SomeValue(x) => ImplicitKey(x)
    case NewtypeStruct(_, x) => ImplicitKey(x)
    case _ => None
  }

  /**
   * `_to_writer`'s root-key override: with a key, a leading `Str` is
   * replaced by it, any other leading token gets it inserted in front, and
   * an empty buffer stays empty.
   */
  function WithRootKey(ts: seq<NaiveToken>, maybeKey: Option<string>): (r: seq<NaiveToken>)
    ensures maybeKey.None? || ts == [] ==> r == ts
    ensures maybeKey.Some? && ts != [] ==>
      |r| > 0 && r[0] == Str(maybeKey.value) && r[1..] == (if ts[0].Str? then ts[1..] else ts)
  {
    match maybeKey
    case None => ts
    case Some(key) =>
      if ts == [] then ts
      else if ts[0].Str? then ts[0 := Str(key)]
      else [Str(key)] + ts
  }

  /** The serializer: one token buffer that every step of the walk appends to. */
  class Serializer {
    var tokens: seq<NaiveToken>

    constructor ()
      ensures tokens == []
    {
      tokens := [];
    }

    method SerializeStr(v: string)
      modifies this
      ensures tokens == old(tokens) + [Str(v)]
    {
      tokens := tokens + [Str(v)];
    }

    /** Every integer width goes through its decimal text. */
    method SerializeInteger(n: int)
      modifies this
      ensures tokens == old(tokens) + [Str(ToDecimal(n))]
    {
      SerializeStr(ToDecimal(n));
    }

    method SerializeChar(c: char)
      modifies this
      ensures tokens == old(tokens) + [Str([c])]
    {
      SerializeStr([c]);
    }

    /** A bool goes through its `i8` cast, so it is written as `1` or `0`. */
    method SerializeBool(v: bool)
      modifies this
      ensures tokens == old(tokens) + [Str(if v then "1" else "0")]
    {
      SerializeInteger(BoolAsI8(v));
    }

    method SerializeF32(f: F32) returns (r: Result<(), Error>)
      modifies this
      ensures f.finite ==> r == Ok(()) && tokens == old(tokens) + [Str(f.text)]
      ensures !f.finite ==> r == Err(NonFiniteFloat(f)) && tokens == old(tokens)
    {
      if f.finite {
        SerializeStr(f.text);
        r := Ok(());
      } else {
        r := Err(NonFiniteFloat(f));
      }
    }

    method SerializeNone()
      modifies this
      ensures tokens == old(tokens) + [Null]
    {
      tokens := tokens + [Null];
    }

    /** Opens a sequence, tuple or tuple struct. */
    method SerializeSeq()
      modifies this
      ensures tokens == old(tokens) + [SeqBegin]
    {
      tokens := tokens + [SeqBegin];
    }

    /** `end` of a sequence, tuple or tuple struct. */
    method EndSeq()
      modifies this
      ensures tokens == old(tokens) + [SeqEnd]
    {
      tokens := tokens + [SeqEnd];
    }

    method SerializeMap()
      modifies this
      ensures tokens == old(tokens) + [ObjBegin]
    {
      tokens := tokens + [ObjBegin];
    }

    /** Opens a struct; on an empty buffer its name goes first, as the root key. */
    method SerializeStruct(name: string)
      modifies this
      ensures tokens == old(tokens) + (if old(tokens) == [] then [Str(name)] else []) + [ObjBegin]
    {
      if tokens == [] {
        SerializeStr(name);
      }
      SerializeMap();
    }

    /** `end` of a map or struct. */
    method EndMap()
      modifies this
      ensures tokens == old(tokens) + [ObjEnd]
    {
      tokens := tokens + [ObjEnd];
    }

    /**
     * Walks `v`, appending its tokens. On success the buffer grows by exactly
     * `Encode(v, ...)`; on failure the error is `Encode`'s, and the buffer has
     * only been appended to.
     */
    method Serialize(v: Value) returns (r: Result<(), Error>)
      modifies this
      ensures Encode(v, old(tokens) == []).Ok? ==>
        r == Ok(()) && tokens == old(tokens) + Encode(v, old(tokens) == []).value
      ensures Encode(v, old(tokens) == []).Err? ==>
        r == Err(Encode(v, old(tokens) == []).error) && old(tokens) <= tokens
      decreases v
    {
      match v
      case SomeValue(x) =>
        r := Serialize(x);
      case NewtypeStruct(_, x) =>
        r := Serialize(x);
      case Seq(es) =>
        r := SerializeSequence(es);
      case Tuple(es) =>
        r := SerializeSequence(es);
      case TupleStruct(_, es) =>
        r := SerializeSequence(es);
      case Map(es) =>
        r := SerializeMapEntries(es);
      case Struct(name, fs) =>
        r := SerializeStructFields(name, fs);
      case _ =>
        r := SerializeLeaf(v);
    }

    /** The shapes that contain no other value: at most one token, or an error. */
    method SerializeLeaf(v: Value) returns (r: Result<(), Error>)
      requires !Compound(v)
      modifies this
      ensures Encode(v, old(tokens) == []).Ok? ==>
        r == Ok(()) && tokens == old(tokens) + Encode(v, old(tokens) == []).value
      ensures Encode(v, old(tokens) == []).Err? ==>
        r == Err(Encode(v, old(tokens) == []).error) && tokens == old(tokens)
    {
      match v
      case Bool(b) =>
        SerializeBool(b);
        r := Ok(());
      case Integer(_, n) =>
        SerializeInteger(n);
        r := Ok(());
      case Float32(f) =>
        r := SerializeF32(f);
      case Float64(f) =>
        r := SerializeF32(f);
      case Char(c) =>
        SerializeChar(c);
        r := Ok(());
      case Text(s) =>
        SerializeStr(s);
        r := Ok(());
      case Bytes(_) =>
        r := Err(Unsupported("Bytes"));
      case NoneValue =>
        SerializeNone();
        r := Ok(());
      case Unit =>
        r := Err(Unsupported("Unit Type"));
      case UnitStruct(_) =>
        r := Err(Unsupported("Unit Struct"));
      case UnitVariant(_, _, variant) =>
        SerializeStr(variant);
        r := Ok(());
      case NewtypeVariant(_, _, _, _) =>
        r := Err(Unsupported("Enum Newtype Variant"));
      case TupleVariant(_, _, _, _) =>
        // Opening the variant appends nothing; its first field, or its `end`, fails.
        r := Err(Unsupported("Enum Tuple Variant"));
      case StructVariant(_, _, _, _) =>
        // Likewise for a struct variant.
        r := Err(Unsupported("Enum Struct Variant"));
      case _ =>
        assert false;
    }

    /** `SeqBegin`, each element in order, `SeqEnd`. */
    method SerializeSequence(es: seq<Value>) returns (r: Result<(), Error>)
      modifies this
      ensures Enclose(SeqBegin, EncodeElements(es), SeqEnd).Ok? ==>
        r == Ok(()) && tokens == old(tokens) + Enclose(SeqBegin, EncodeElements(es), SeqEnd).value
      ensures EncodeElements(es).Err? ==> r == Err(EncodeElements(es).error) && old(tokens) <= tokens
      decreases es, 1
    {
      SerializeSeq();
      r := SerializeElements(es);
      if r.Ok? {
        EndSeq();
      }
    }

    /** `ObjBegin`, each entry's key and value in order, `ObjEnd`. */
    method SerializeMapEntries(es: seq<Entry>) returns (r: Result<(), Error>)
      modifies this
      ensures Enclose(ObjBegin, EncodeEntries(es), ObjEnd).Ok? ==>
        r == Ok(()) && tokens == old(tokens) + Enclose(ObjBegin, EncodeEntries(es), ObjEnd).value
      ensures EncodeEntries(es).Err? ==> r == Err(EncodeEntries(es).error) && old(tokens) <= tokens
      decreases es, 1
    {
      SerializeMap();
      r := SerializeEntries(es);
      if r.Ok? {
        EndMap();
      }
    }

    /** The struct's name if the buffer is empty, `ObjBegin`, each field in order, `ObjEnd`. */
    method SerializeStructFields(name: string, fs: seq<Field>) returns (r: Result<(), Error>)
      modifies this
      ensures Encode(Struct(name, fs), old(tokens) == []).Ok? ==>
        r == Ok(()) && tokens == old(tokens) + Encode(Struct(name, fs), old(tokens) == []).value
      ensures EncodeFields(fs).Err? ==> r == Err(EncodeFields(fs).error) && old(tokens) <= tokens
      decreases fs, 1
    {
      SerializeStruct(name);
      r := SerializeFields(fs);
      if r.Ok? {
        EndMap();
      }
    }

    method SerializeElements(es: seq<Value>) returns (r: Result<(), Error>)
      requires tokens != []
      modifies this
      ensures EncodeElements(es).Ok? ==> r == Ok(()) && tokens == old(tokens) + EncodeElements(es).value
      ensures EncodeElements(es).Err? ==> r == Err(EncodeElements(es).error) && old(tokens) <= tokens
      decreases es, 0
    {
      ghost var done: seq<NaiveToken> := [];
      var i := 0;
      assert es[i..] == es;
      AfterNothing(EncodeElements(es));
      while i < |es|
        invariant 0 <= i <= |es|
        invariant tokens == old(tokens) + done
        invariant EncodeElements(es) == After(done, EncodeElements(es[i..]))
      {
        assert es[i..][0] == es[i] && es[i..][1..] == es[i + 1..];
        var step := Serialize(es[i]);
        if step.Err? {
          return step;
        }
        AfterAfter(done, Encode(es[i], false).value, EncodeElements(es[i + 1..]));
        done := done + Encode(es[i], false).value;
        i := i + 1;
      }
      r := Ok(());
    }

    /** `serialize_key` then `serialize_value`. */
    method SerializeEntry(e: Entry) returns (r: Result<(), Error>)
      requires tokens != []
      modifies this
      ensures EncodeEntry(e).Ok? ==> r == Ok(()) && tokens == old(tokens) + EncodeEntry(e).value
      ensures EncodeEntry(e).Err? ==> r == Err(EncodeEntry(e).error) && old(tokens) <= tokens
      decreases e
    {
      r := Serialize(e.key);
      if r.Ok? {
        r := Serialize(e.value);
      }
    }

    method SerializeEntries(es: seq<Entry>) returns (r: Result<(), Error>)
      requires tokens != []
      modifies this
      ensures EncodeEntries(es).Ok? ==> r == Ok(()) && tokens == old(tokens) + EncodeEntries(es).value
      ensures EncodeEntries(es).Err? ==> r == Err(EncodeEntries(es).error) && old(tokens) <= tokens
      decreases es, 0
    {
      ghost var done: seq<NaiveToken> := [];
      var i := 0;
      assert es[i..] == es;
      AfterNothing(EncodeEntries(es));
      while i < |es|
        invariant 0 <= i <= |es|
        invariant tokens == old(tokens) + done
        invariant EncodeEntries(es) == After(done, EncodeEntries(es[i..]))
      {
        assert es[i..][0] == es[i] && es[i..][1..] == es[i + 1..];
        var step := SerializeEntry(es[i]);
        if step.Err? {
          return step;
        }
        AfterAfter(done, EncodeEntry(es[i]).value, EncodeEntries(es[i + 1..]));
        done := done + EncodeEntry(es[i]).value;
        i := i + 1;
      }
      r := Ok(());
    }

    /** The field's name as a `Str`, then its value. */
    method SerializeField(f: Field) returns (r: Result<(), Error>)
      requires tokens != []
      modifies this
      ensures EncodeField(f).Ok? ==> r == Ok(()) && tokens == old(tokens) + EncodeField(f).value
      ensures EncodeField(f).Err? ==> r == Err(EncodeField(f).error) && old(tokens) <= tokens
      decreases f
    {
      SerializeStr(f.key);
      r := Serialize(f.value);
    }

    method SerializeFields(fs: seq<Field>) returns (r: Result<(), Error>)
      requires tokens != []
      modifies this
      ensures EncodeFields(fs).Ok? ==> r == Ok(()) && tokens == old(tokens) + EncodeFields(fs).value
      ensures EncodeFields(fs).Err? ==> r == Err(EncodeFields(fs).error) && old(tokens) <= tokens
      decreases fs, 0
    {
      ghost var done: seq<NaiveToken> := [];
      var i := 0;
      assert fs[i..] == fs;
      AfterNothing(EncodeFields(fs));
      while i < |fs|
        invariant 0 <= i <= |fs|
        invariant tokens == old(tokens) + done
        invariant EncodeFields(fs) == After(done, EncodeFields(fs[i..]))
      {
        assert fs[i..][0] == fs[i] && fs[i..][1..] == fs[i + 1..];
        var step := SerializeField(fs[i]);
        if step.Err? {
          return step;
        }
        AfterAfter(done, EncodeField(fs[i]).value, EncodeFields(fs[i + 1..]));
        done := done + EncodeField(fs[i]).value;
        i := i + 1;
      }
      r := Ok(());
    }

    /** The root-key patch `_to_writer` applies to the finished buffer. */
    method ApplyRootKey(maybeKey: Option<string>)
      modifies this
      ensures tokens == WithRootKey(old(tokens), maybeKey)
    {
      if maybeKey.Some? && tokens != [] {
        if tokens[0].Str? {
          tokens := tokens[0 := Str(maybeKey.value)];
        } else {
          tokens := [Str(maybeKey.value)] + tokens;
        }
      }
    }
  }

  /**
   * `_to_writer` up to the `Vdf`: serialize, patch the root key, then build.
   * `build` stands for `Vdf::try_from` on the token buffer; rendering and
   * writing the `Vdf` out are not part of this model.
   */
  method ToWriter<Vdf>(value: Value, maybeKey: Option<string>,
                       build: seq<NaiveToken> -> Result<Vdf, ParserError.TokenContext>)
    returns (r: Result<Vdf, Error>)
    ensures Encode(value, true).Err? ==> r == Err(Encode(value, true).error)
    ensures Encode(value, true).Ok? ==>
      var built := build(WithRootKey(Encode(value, true).value, maybeKey));
      (built.Ok? ==> r == Ok(built.value)) && (built.Err? ==> r == Err(InvalidTokenStream(built.error)))
  {
    var serializer := new Serializer();
    var walked := serializer.Serialize(value);
    if walked.Err? {
      return Err(walked.error);
    }
    assert serializer.tokens == Encode(value, true).value;
    serializer.ApplyRootKey(maybeKey);
    match build(serializer.tokens)
    case Ok(vdf) => r := Ok(vdf);
    case Err(context) => r := Err(InvalidTokenStream(context));
  }
}
