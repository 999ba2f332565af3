/**
 * The error vocabulary of the keyvalues parser crate: the two top-level
 * error kinds, the seven ways a token stream can fail to fold into a
 * `Vdf`, and the messages each of them displays as.
 */
module ParserError {
  import opened Wrappers

  /** Why a token stream could not be converted into a `Vdf`. */
  datatype TokenContext =
    | EofWhileParsingKey
    | EofWhileParsingVal
    | EofWhileParsingSeq
    | EofWhileParsingObj
    | ExpectedSomeVal
    | ExpectedNonSeqVal
    | TrailingTokens

  /** The pest grammar's error is foreign; only its rendered text is kept. */
  datatype PestError = PestError(message: string)

  datatype Error =
    | ParseError(pest: PestError)
    | InvalidTokenStream(context: TokenContext)

  /** Every token-stream error kind, each once. */
  const AllContexts: seq<TokenContext> := [
    EofWhileParsingKey, EofWhileParsingVal, EofWhileParsingSeq, EofWhileParsingObj,
    ExpectedSomeVal, ExpectedNonSeqVal, TrailingTokens
  ]

  const InvalidTokenStreamPrefix: string := "Invalid token stream Context: "
  const ParseErrorPrefix: string := "Failed parsing input Error: "

  /** `From<TokenContext> for Error`: the context is wrapped unchanged. */
  function FromTokenContext(context: TokenContext): (e: Error)
    ensures e.InvalidTokenStream? && e.context == context
    ensures !e.ParseError?
  {
    InvalidTokenStream(context)
  }

  /** The fixed `Display` text of each token-stream error kind. */
  function ContextMessage(c: TokenContext): (m: string)
    ensures |m| > 0
  {
    match c
    case EofWhileParsingKey => "Token stream ended when needed key"
    case EofWhileParsingVal => "Token stream ended when needed value"
    case EofWhileParsingSeq => "Token stream ended when parsing sequence"
    case EofWhileParsingObj => "Token stream ended when parsing object"
    case ExpectedSomeVal => "Found invalid token when expecting value"
    case ExpectedNonSeqVal => "Found invalid token when expecing non sequence value"
    case TrailingTokens => "Trailing tokens after finishing conversion"
  }

  /** The `Display` text of the crate's `Error`. */
  function ErrorMessage(e: Error): (m: string)
    ensures e.ParseError? ==> m == ParseErrorPrefix + e.pest.message
    ensures e.InvalidTokenStream? ==>
      |m| > |InvalidTokenStreamPrefix| && m[..|InvalidTokenStreamPrefix|] == InvalidTokenStreamPrefix
  {
    match e
    case ParseError(pest) => ParseErrorPrefix + pest.message
    case InvalidTokenStream(c) => InvalidTokenStreamPrefix + ContextMessage(c)
  }

  /** Reads a token-stream error kind back from its message, by search over `AllContexts`. */
  function ContextFromMessage(m: string): (r: Option<TokenContext>)
    ensures r.Some? ==> ContextMessage(r.value) == m
  {
    FindContext(m, 0)
  }

  function FindContext(m: string, from: nat): (r: Option<TokenContext>)
    requires from <= |AllContexts|
    ensures r.Some? ==> ContextMessage(r.value) == m
    decreases |AllContexts| - from
  {
    if from == |AllContexts| then None
    else if ContextMessage(AllContexts[from]) == m then Some(AllContexts[from])
    else FindContext(m, from + 1)
  }

  /** There are exactly seven token-stream error kinds: every kind is listed once in `AllContexts`. */
  lemma ExactlySevenContexts(c: TokenContext)
    ensures |AllContexts| == 7
    ensures c in AllContexts
    ensures forall i, j :: 0 <= i < j < |AllContexts| ==> AllContexts[i] != AllContexts[j]
  {
  }

  /** The seven messages are pairwise distinct, so a message names one kind. */
  lemma ContextMessagesDistinct(a: TokenContext, b: TokenContext)
    ensures ContextMessage(a) == ContextMessage(b) ==> a == b
  {
  }

  lemma {:induction false} FindContextFinds(c: TokenContext, from: nat)
    requires from <= |AllContexts|
    requires c in AllContexts[from..]
    ensures FindContext(ContextMessage(c), from) == Some(c)
    decreases |AllContexts| - from
  {
    ContextMessagesDistinct(c, AllContexts[from]);
    if AllContexts[from] != c {
      assert c in AllContexts[from + 1..];
      FindContextFinds(c, from + 1);
    }
  }

  /** A message is read back as the kind that displays it. */
  lemma ContextMessageRoundTrip(c: TokenContext)
    ensures ContextFromMessage(ContextMessage(c)) == Some(c)
  {
    ExactlySevenContexts(c);
    FindContextFinds(c, 0);
  }

  /** Text that is no kind's message is read as no kind. */
  lemma ContextFromOtherMessage(m: string)
    ensures (forall c :: ContextMessage(c) != m) <==> ContextFromMessage(m).None?
  {
    if ContextFromMessage(m).None? && exists c :: ContextMessage(c) == m {
      var c :| ContextMessage(c) == m;
      ContextMessageRoundTrip(c);
    }
  }

  /**
   * The displayed text of an `Error` determines its kind; for a token-stream
   * error it determines the context, and for a parse error the pest error's
   * rendered text (the foreign error may hold more than it displays).
   */
  lemma ErrorMessageInjective(a: Error, b: Error)
    ensures ErrorMessage(a) == ErrorMessage(b) ==> a.ParseError? == b.ParseError?
    ensures ErrorMessage(a) == ErrorMessage(b) && a.ParseError? ==>
      b.ParseError? && a.pest.message == b.pest.message
    ensures ErrorMessage(a) == ErrorMessage(b) && a.InvalidTokenStream? ==> a == b
  {
    if ErrorMessage(a) == ErrorMessage(b) {
      assert ErrorMessage(a)[0] == ErrorMessage(b)[0];
      match a
      case ParseError(pa) =>
        if b.ParseError? {
          var n := |ParseErrorPrefix|;
          assert pa.message == ErrorMessage(a)[n..] == ErrorMessage(b)[n..] == b.pest.message;
        }
      case InvalidTokenStream(ca) =>
        if b.InvalidTokenStream? {
          var n := |InvalidTokenStreamPrefix|;
          assert ContextMessage(ca) == ErrorMessage(a)[n..] == ErrorMessage(b)[n..] == ContextMessage(b.context);
          ContextMessagesDistinct(ca, b.context);
        }
    }
  }
}
