# keyvalues-serde encode bridge, modelled in Dafny

This project models the encode side of the vdf-rs crates. It covers two parts.

- `keyvalues-serde/src/ser.rs`: the `Serializer`. It walks a host value and
  appends flat tokens (`Str`, `ObjBegin`, `ObjEnd`, `SeqBegin`, `SeqEnd`,
  `Null`) to one token buffer. After the walk, `_to_writer` patches the root
  key at the front of the buffer and hands the buffer to the stream-to-`Vdf`
  builder.
- `keyvalues-parser/src/error.rs`: the parser crate's `Error`. It has two
  kinds. `TokenContext` lists the seven structural errors a token stream can
  raise, and each of them has a fixed message.

Files and modules:

- `wrappers.dfy` (`Wrappers`): `Option` and `Result`.
- `parser_error.dfy` (`ParserError`): `TokenContext`, `Error`, the `From`
  wrapping and the message table. Lemmas state that there are exactly seven
  kinds and that messages are pairwise distinct. They also state that a
  message can be read back as its kind, and that an `Error`'s text determines
  its kind, its context, or the displayed text of its pest error.
- `naive_tokens.dfy` (`NaiveTokens`): the token kinds, which are declared
  from their uses in `ser.rs`. `Nest` reads a stream against a stack of open
  brackets. `Balanced` says every begin token is closed by an end token of
  its own kind.
- `decimal.dfy` (`Decimal`): `to_string` for integers, with its inverse and
  a round-trip lemma.
- `ser.dfy` (`Ser`): the rest of `ser.rs`.
  - The host value is `Value`, a datatype with one constructor per serde
    shape.
  - `Encode` is the reference definition of what one value contributes to
    the buffer.
  - The `Serializer` class keeps the buffer as a `seq` field. Its methods
    mirror the serde entry points. The recursive `Serialize` method is
    proved to append exactly `Encode(v, old(tokens) == [])`, so the
    struct-name rule reads the buffer's state as the source does (ser.rs:272).
  - `ApplyRootKey` is the key patch of `_to_writer`. `ToWriter` chains the
    walk, the patch and the builder.
- `ser_properties.dfy` (`SerProperties`): lemmas about `Encode`.
  - Brackets always nest.
  - A value is accepted exactly when no part of it has a rejected shape.
  - The implicit root key is the name of the outermost struct.
  - With an explicit key, every successful encode starts with exactly one
    key token, and the result stays balanced.

The root-key override (ser.rs:70-80) acts on the first token only:

- A leading `Str` is overwritten by the explicit key, whatever produced it.
  For a top-level scalar that `Str` is the scalar itself: encoding `42` with
  key `"num"` leaves `[Str("num")]` in the buffer
  (`SerProperties.TopLevelScalarReplacedByKey`). So the "custom top level VDF
  key" of `to_writer_with_key` (ser.rs:42-47) takes the scalar's place.
- An empty buffer stays empty under the override. The key is inserted in
  front only when the first token is something other than a `Str`.

## Model

| member | source | states |
|---|---|---|
| ParserError.FromTokenContext | keyvalues-parser/src/error.rs:23-27 | the `From` impl wraps the context unchanged as `InvalidTokenStream`, never as a parse error |
| ParserError.ContextMessage | keyvalues-parser/src/error.rs:41-55 | each token-stream error kind displays as a fixed, non-empty message (source spelling kept, including "expecing") |
| ParserError.ErrorMessage | keyvalues-parser/src/error.rs:16-21 | a parse error displays as "Failed parsing input Error: " + the pest text; an invalid token stream displays as "Invalid token stream Context: " followed by its context's message |
| ParserError.ExactlySevenContexts | keyvalues-parser/src/error.rs:31-39 | every `TokenContext` appears in the seven-element list, and the seven are pairwise distinct |
| ParserError.ContextMessagesDistinct | keyvalues-parser/src/error.rs:43-51 | two kinds with the same message are the same kind |
| ParserError.ContextFromMessage | keyvalues-parser/src/error.rs:43-51 | reading a message back yields only a kind whose message it is |
| ParserError.ContextMessageRoundTrip | keyvalues-parser/src/error.rs:43-51 | every kind's message is read back as that kind |
| ParserError.ContextFromOtherMessage | keyvalues-parser/src/error.rs:43-51 | a text that is no kind's message is read back as no kind, and conversely |
| ParserError.ErrorMessageInjective | keyvalues-parser/src/error.rs:16-21 | equal displayed texts mean the same kind; for an invalid token stream, the same error (same context); for a parse error, the same pest error text |
| Decimal.ToDecimal | keyvalues-serde/src/ser.rs:120-128 | an integer's `to_string` is non-empty, starts with `-` exactly when negative, and is otherwise all digits |
| Decimal.DecimalRoundTrip | keyvalues-serde/src/ser.rs:120-128 | the text written for an integer reads back as the same integer |
| Decimal.DecimalInjective | keyvalues-serde/src/ser.rs:143-155 | different integers (of any width) are written as different `Str` texts |
| Ser.Encode | keyvalues-serde/src/ser.rs:130-288 | each accepted host value contributes at least one token; the only errors the walk raises are `Unsupported` and `NonFiniteFloat` |
| Ser.EncodeElements | keyvalues-serde/src/ser.rs:290-339 | the elements of a sequence, tuple or tuple struct fail only with `Unsupported` or `NonFiniteFloat` |
| Ser.EncodeEntry | keyvalues-serde/src/ser.rs:361-373 | a map entry (key through the same walk, then value) fails only with `Unsupported` or `NonFiniteFloat` |
| Ser.EncodeEntries | keyvalues-serde/src/ser.rs:357-379 | a map's entries fail only with `Unsupported` or `NonFiniteFloat` |
| Ser.EncodeField | keyvalues-serde/src/ser.rs:385-391 | a struct field (name, then value) fails only with `Unsupported` or `NonFiniteFloat` |
| Ser.EncodeFields | keyvalues-serde/src/ser.rs:381-397 | a struct's fields fail only with `Unsupported` or `NonFiniteFloat` |
| Ser.WithRootKey | keyvalues-serde/src/ser.rs:70-80 | without a key, or on an empty buffer, nothing changes; with a key, the key becomes token 0 and the old tokens after it are kept in order, with a leading `Str` dropped and any other leading token shifted by one |
| Ser.Serializer.constructor | keyvalues-serde/src/ser.rs:22-27 | a new serializer has an empty token buffer |
| Ser.Serializer.SerializeStr | keyvalues-serde/src/ser.rs:157-160 | appends exactly `Str(v)` and changes nothing else |
| Ser.Serializer.SerializeInteger | keyvalues-serde/src/ser.rs:120-155 | every integer width appends exactly one `Str` holding its decimal text |
| Ser.Serializer.SerializeChar | keyvalues-serde/src/ser.rs:154 | a char appends exactly one `Str` holding that char |
| Ser.Serializer.SerializeBool | keyvalues-serde/src/ser.rs:162-164 | through the `i8` cast, `true` appends `Str("1")` and `false` appends `Str("0")` |
| Ser.Serializer.SerializeF32 | keyvalues-serde/src/ser.rs:166-172 | a finite float appends its text; a non-finite one fails with `NonFiniteFloat` and appends nothing |
| Ser.Serializer.SerializeNone | keyvalues-serde/src/ser.rs:186-189 | `None` appends exactly one `Null` |
| Ser.Serializer.SerializeSeq | keyvalues-serde/src/ser.rs:238-253 | opening a sequence, tuple or tuple struct appends `SeqBegin` |
| Ser.Serializer.EndSeq | keyvalues-serde/src/ser.rs:301-304 | `end` of a sequence, tuple or tuple struct appends `SeqEnd` |
| Ser.Serializer.SerializeMap | keyvalues-serde/src/ser.rs:265-268 | opening a map appends `ObjBegin` |
| Ser.Serializer.SerializeStruct | keyvalues-serde/src/ser.rs:270-277 | opening a struct appends `Str(name)` only when the buffer was empty, then `ObjBegin` |
| Ser.Serializer.EndMap | keyvalues-serde/src/ser.rs:375-378 | `end` of a map or struct appends `ObjEnd` |
| Ser.Serializer.Serialize | keyvalues-serde/src/ser.rs:191-223 | walking any value appends exactly `Encode(v, buffer was empty)` on success; on failure it returns `Encode`'s error and has only appended; `Some` and newtype structs add nothing of their own |
| Ser.Serializer.SerializeLeaf | keyvalues-serde/src/ser.rs:182-236 | scalars append their one token; bytes, unit, unit struct, newtype, tuple and struct variants fail with `Unsupported` and append nothing; a unit variant appends `Str(variant)` |
| Ser.Serializer.SerializeSequence | keyvalues-serde/src/ser.rs:290-339 | a sequence, tuple or tuple struct appends `SeqBegin`, its elements' tokens in order, then `SeqEnd` |
| Ser.Serializer.SerializeElements | keyvalues-serde/src/ser.rs:294-299 | serializing the elements one by one appends their tokens in order, or stops at the first element's error |
| Ser.Serializer.SerializeMapEntries | keyvalues-serde/src/ser.rs:357-379 | a map appends `ObjBegin`, then key tokens followed by value tokens for each entry in order, then `ObjEnd` |
| Ser.Serializer.SerializeEntry | keyvalues-serde/src/ser.rs:361-373 | an entry appends its key's tokens then its value's, or stops at the key's error |
| Ser.Serializer.SerializeEntries | keyvalues-serde/src/ser.rs:357-373 | the entries are appended in order, stopping at the first error |
| Ser.Serializer.SerializeStructFields | keyvalues-serde/src/ser.rs:381-397 | a struct appends its name (only on an empty buffer), `ObjBegin`, each field name and value in order, `ObjEnd` |
| Ser.Serializer.SerializeField | keyvalues-serde/src/ser.rs:385-391 | a field appends `Str(name)` then its value's tokens |
| Ser.Serializer.SerializeFields | keyvalues-serde/src/ser.rs:381-391 | the fields are appended in order, stopping at the first error |
| Ser.Serializer.ApplyRootKey | keyvalues-serde/src/ser.rs:70-80 | the buffer becomes `WithRootKey` of the old buffer: token 0 is overwritten in place or the key is inserted at index 0 |
| Ser.ToWriter | keyvalues-serde/src/ser.rs:62-86 | a walk failure is returned as is; otherwise the builder sees exactly the root-key-patched `Encode` of the value, and its failure is returned as `InvalidTokenStream` with the same context |
| SerProperties.EncodeNests | keyvalues-serde/src/ser.rs:238-397 | every successful walk closes each `ObjBegin`/`SeqBegin` it opens with an end token of the same kind, properly nested |
| SerProperties.EncodeSucceedsIffRepresentable | keyvalues-serde/src/ser.rs:166-236 | the walk succeeds if and only if no part of the value is bytes, unit, unit struct, a newtype/tuple/struct variant or a non-finite float |
| SerProperties.RootNameIsImplicitKey | keyvalues-serde/src/ser.rs:270-277 | on an empty buffer the only difference from anywhere else is `Str(name)` of the outermost struct under `Some`/newtype wrappers; nested structs never add a name |
| SerProperties.KeyOverrideKeepsNesting | keyvalues-serde/src/ser.rs:70-80 | the root-key override leaves bracket nesting as it was |
| SerProperties.DocumentStartsWithOneKey | keyvalues-serde/src/ser.rs:62-80 | with an explicit key, a successful encode starts with that key, the next token (if any) is not a `Str`, and the stream is balanced |
| SerProperties.RootKeyReplacesStructName | keyvalues-serde/src/ser.rs:70-75 | an explicit key takes the place of a root struct's name and the rest is untouched |
| SerProperties.TopLevelScalarReplacedByKey | keyvalues-serde/src/ser.rs:70-75 | a top-level integer's single `Str` is overwritten by the explicit key |
| SerProperties.ScalarTokens | keyvalues-serde/src/ser.rs:143-172 | a bool is one `Str` of `1`/`0`; an integer is one `Str` that reads back as the integer; a char is one `Str` of itself; a float is its text when finite and `NonFiniteFloat` otherwise |
| SerProperties.StructExample | keyvalues-serde/src/ser.rs:270-277 | a root struct `root {a: 1, b: true}` gives `Str("root") ObjBegin Str("a") Str("1") Str("b") Str("1") ObjEnd` |
| SerProperties.NestedSequenceExample | keyvalues-serde/src/ser.rs:238-253 | a sequence of sequences passes through as nested `SeqBegin`/`SeqEnd`; rejecting it is left to the builder |

## Left out

- Float numerics (ser.rs:166-180): `is_finite`, `to_string` of a float and the `f64 as f32` narrowing are not modelled. `F32` keeps only whether the value is finite and its text. `Float64` carries the `f32` its cast yields.
- Text output and I/O (ser.rs:29-53, 83, 88-118): `std::io::Write`, `write!`, `to_string`, `to_string_with_key` and the UTF-8 conversion are I/O. `ToWriter` returns the built `Vdf` instead of writing it.
- `Vdf::try_from` and `Vdf`'s `Display` (ser.rs:82-83) are not part of this model. `ToWriter` takes the builder as a function parameter `build`. The model does not define the builder's automaton.
- `PestError` is a foreign parser error. It is kept as an opaque payload that carries only its displayed text.
- keyvalues-serde/src/error.rs is not part of this model. `Ser.Error` declares only the variants `ser.rs` raises, plus `InvalidTokenStream(TokenContext)` for a builder failure.
- Integer widths are carried but not range-checked. The rule (decimal text) is the same for every width.
- serde's trait plumbing and the derived `Serialize` impls are not modelled. `Value` carries what serde presents to the serializer: field order, map iteration order, and fields already skipped. Variant indices are `nat` rather than `u32`.
- The fuzz target (keyvalues-serde/fuzz/fuzz_targets/serde.rs) depends on `from_str`, which is not part of this model.
- Ser.Serializer.Serialize: on failure, the contract says only that tokens were appended. It does not say which partial tokens, because `_to_writer` discards the buffer on any error.
- ParserError.ErrorMessageInjective: for a parse error, the lemma concludes only that the pest errors display the same text, not that they are equal. `PestError` is kept as its text, and the foreign error's derived equality compares fields its display may not show.
