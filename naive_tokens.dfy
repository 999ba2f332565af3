/**
 * The flat token stream the serializer emits and the stream-to-`Vdf`
 * builder consumes.
 */
module NaiveTokens {
  import opened Wrappers

  datatype NaiveToken =
    | Str(s: string)
    | ObjBegin
    | ObjEnd
    | SeqBegin
    | SeqEnd
    | Null

  /**
   * Reads `ts` against a stack of still-open brackets (innermost last):
   * `ObjBegin`/`SeqBegin` open, `ObjEnd`/`SeqEnd` must close the innermost
   * bracket of their own kind. Yields the stack left open afterwards, or
   * `None` at the first closer that does not match.
   */
  function Nest(ts: seq<NaiveToken>, open: seq<NaiveToken>): Option<seq<NaiveToken>>
    decreases |ts|
  {
    if ts == [] then Some(open)
    else match ts[0]
      case ObjBegin => Nest(ts[1..], open + [ObjBegin])
      case SeqBegin => Nest(ts[1..], open + [SeqBegin])
      case ObjEnd =>
        if open != [] && open[|open| - 1] == ObjBegin then Nest(ts[1..], open[..|open| - 1]) else None
      case SeqEnd =>
        if open != [] && open[|open| - 1] == SeqBegin then Nest(ts[1..], open[..|open| - 1]) else None
      case _ => Nest(ts[1..], open)
  }

  /** Every begin token is closed by an end token of its own kind, properly nested. */
  predicate Balanced(ts: seq<NaiveToken>) {
    Nest(ts, []) == Some([])
  }

  /** Reading `a + b` is reading `a`, then reading `b` from where `a` left the stack. */
  lemma {:induction false} NestConcat(a: seq<NaiveToken>, b: seq<NaiveToken>, open: seq<NaiveToken>)
    ensures Nest(a + b, open) == (if Nest(a, open).Some? then Nest(b, Nest(a, open).value) else None)
    decreases |a|
  {
    if a != [] {
      assert (a + b)[0] == a[0];
      assert (a + b)[1..] == a[1..] + b;
      match a[0]
      case ObjBegin => NestConcat(a[1..], b, open + [ObjBegin]);
      case SeqBegin => NestConcat(a[1..], b, open + [SeqBegin]);
      case ObjEnd =>
        if open != [] && open[|open| - 1] == ObjBegin { NestConcat(a[1..], b, open[..|open| - 1]); }
      case SeqEnd =>
        if open != [] && open[|open| - 1] == SeqBegin { NestConcat(a[1..], b, open[..|open| - 1]); }
      case Str(_) => NestConcat(a[1..], b, open);
      case Null => NestConcat(a[1..], b, open);
    } else {
      assert a + b == b;
    }
  }
}
