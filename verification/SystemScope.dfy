/**
  `run_as_system`: a context variable that opens the tenant bypass for the duration of a
  block. The variable is set and reset dynamically; what matters to a reader is that the
  bypass is lexical.
 */
module SystemScope {
  import opened Common

  /** Code as far as the scope is concerned. */
  datatype Code =
    | Nothing
    | Orm(id: nat)
    | Throw
    | Seq(first: Code, second: Code)
    | Try(body: Code)
    | AsSystem(reason: string, body: Code)

  /** A statement and whether the tenant filter was bypassed for it. */
  datatype Run = Run(id: nat, bypassed: bool)

  /** The lexical reading: a statement is bypassed iff it stands inside a `run_as_system`
      block (or the whole code does). The flag says whether an exception escapes. */
  function Lexical(code: Code, inside: bool): (seq<Run>, bool) {
    match code
    case Nothing => ([], false)
    case Orm(id) => ([Run(id, inside)], false)
    case Throw => ([], true)
    case Seq(a, b) =>
      var (ta, xa) := Lexical(a, inside);
      if xa then (ta, true) else var (tb, xb) := Lexical(b, inside); (ta + tb, xb)
    case Try(body) => (Lexical(body, inside).0, false)
    case AsSystem(reason, body) => if reason == "" then ([], true) else Lexical(body, true)
  }

  class ContextVariable {
    var reason: Option<string>

    constructor ()
      ensures reason == None
    {
      reason := None;
    }

    /** Runs code. Whatever it throws, the variable ends with the value it had, and the bypass
        was in force for exactly the statements that stand inside a block. */
    method Execute(code: Code) returns (trace: seq<Run>, thrown: bool)
      modifies this
      ensures reason == old(reason)
      ensures (trace, thrown) == Lexical(code, old(reason).Some?)
      decreases code
    {
      match code
      case Nothing => trace, thrown := [], false;
      case Orm(id) => trace, thrown := [Run(id, reason.Some?)], false;
      case Throw => trace, thrown := [], true;
      case Seq(a, b) =>
        trace, thrown := Execute(a);
        if !thrown {
          var more;
          more, thrown := Execute(b);
          trace := trace + more;
        }
      case Try(body) =>
        trace, thrown := Execute(body);
        thrown := false;
      case AsSystem(why, body) =>
        if why == "" {
          trace, thrown := [], true;
        } else {
          var token := reason;
          reason := Some(why);
          trace, thrown := Execute(body);
          reason := token;
        }
    }
  }

  predicate Mentions(code: Code, id: nat) {
    match code
    case Orm(other) => other == id
    case Seq(a, b) => Mentions(a, id) || Mentions(b, id)
    case Try(body) => Mentions(body, id)
    case AsSystem(_, body) => Mentions(body, id)
    case _ => false
  }

  /** `id` stands somewhere in the code outside every `run_as_system` block. */
  predicate MentionsOutside(code: Code, id: nat) {
    match code
    case Orm(other) => other == id
    case Seq(a, b) => MentionsOutside(a, id) || MentionsOutside(b, id)
    case Try(body) => MentionsOutside(body, id)
    case _ => false
  }

  /** A bypassed statement of request code stands inside a block; one that is filtered
      stands outside every block. A bypass therefore never leaks past its block, not even
      through an exception. */
  lemma {:induction false} BypassIsLexical(code: Code, inside: bool, r: Run)
    requires r in Lexical(code, inside).0
    ensures Mentions(code, r.id)
    ensures inside ==> r.bypassed
    ensures !inside && !r.bypassed ==> MentionsOutside(code, r.id)
    ensures !inside && r.bypassed ==> exists block :: Within(block, code) && block.AsSystem? && Mentions(block, r.id)
  {
    match code
    case Nothing =>
    case Orm(id) =>
    case Throw =>
    case Seq(a, b) =>
      if r in Lexical(a, inside).0 {
        BypassIsLexical(a, inside, r);
      } else {
        BypassIsLexical(b, inside, r);
      }
    case Try(body) =>
      BypassIsLexical(body, inside, r);
    case AsSystem(reason, body) =>
      BypassIsLexical(body, true, r);
      assert Within(code, code);
  }

  predicate Within(part: Code, code: Code) {
    part == code ||
    match code
    case Seq(a, b) => Within(part, a) || Within(part, b)
    case Try(body) => Within(part, body)
    case AsSystem(_, body) => Within(part, body)
    case _ => false
  }
}
