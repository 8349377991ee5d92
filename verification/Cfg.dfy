/** `cfg` conditions: the evaluator that runs over a token stream, and what conditions mean. */
module Cfg {
  import opened Wrappers

  /** A token.  `Meta` is a whole condition that a macro has put in: its name, and the tokens after the name.
      `ExprStr` is an expression that a macro has put in and that is a string. */
  datatype Token =
    | Ident(name: string)
    | Eq
    | Str(val: string)
    | ExprStr(val: string)
    | Open
    | Close
    | Comma
    | Meta(name: string, toks: seq<Token>)
    | Other(text: string)

  /** What is configured. */
  datatype Env = Env(values: set<(string, string)>, fcns: map<string, string -> bool>, flags: set<string>)

  predicate HasValues(env: Env, name: string) {
    exists p :: p in env.values && p.0 == name
  }

  /** A name that has values is compared with them, and with nothing else. */
  predicate ValueHolds(env: Env, name: string, val: string) {
    if HasValues(env, name) then (name, val) in env.values
    else name in env.fcns && env.fcns[name](val)
  }

  predicate FlagHolds(env: Env, name: string) {
    HasValues(env, name) || name in env.flags
  }

  // ----- the evaluator on tokens

  function Size(ts: seq<Token>): nat {
    if ts == [] then 0 else 1 + (if ts[0].Meta? then Size(ts[0].toks) else 0) + Size(ts[1..])
  }

  /** Whether the condition holds, and the tokens after it. */
  datatype Answer = Answer(holds: bool, rest: seq<Token>)

  predicate NextIs(ts: seq<Token>, t: Token) {
    ts != [] && ts[0] == t
  }

  function Check(env: Env, ts: seq<Token>): (r: Option<Answer>)
    ensures r.Some? ==> Size(r.value.rest) < Size(ts)
    decreases Size(ts), 0
  {
    if ts == [] then None
    else
      match ts[0]
      case Meta(name, toks) =>
        (match CheckNamed(env, name, toks)
         case None => None
         case Some(a) => Some(Answer(a.holds, ts[1..])))
      case Ident(name) => CheckNamed(env, name, ts[1..])
      case _ => None
  }

  function CheckNamed(env: Env, name: string, ts: seq<Token>): (r: Option<Answer>)
    ensures r.Some? ==> Size(r.value.rest) <= Size(ts)
    decreases Size(ts), 2
  {
    if NextIs(ts, Eq) then CheckValue(env, name, ts[1..])
    else if NextIs(ts, Open) then CheckFunction(env, name, ts[1..])
    else Some(Answer(FlagHolds(env, name), ts))
  }

  function CheckValue(env: Env, name: string, ts: seq<Token>): (r: Option<Answer>)
    ensures r.Some? ==> Size(r.value.rest) <= Size(ts)
  {
    if ts != [] && (ts[0].Str? || ts[0].ExprStr?) then Some(Answer(ValueHolds(env, name, ts[0].val), ts[1..])) else None
  }

  function CheckFunction(env: Env, name: string, ts: seq<Token>): (r: Option<Answer>)
    ensures r.Some? ==> Size(r.value.rest) <= Size(ts)
    decreases Size(ts), 2
  {
    if name == "any" || name == "cfg" then CheckList(env, true, false, ts)
    else if name == "all" then CheckList(env, false, true, ts)
    else if name == "not" then
      match Check(env, ts)
      case None => None
      case Some(a) => EndNot(a)
    else None
  }

  /** After the operand of `not`: a comma, if there is one, and the closing parenthesis. */
  function EndNot(a: Answer): (r: Option<Answer>)
    ensures r.Some? ==> Size(r.value.rest) <= Size(a.rest)
  {
    var rest := if NextIs(a.rest, Comma) then a.rest[1..] else a.rest;
    assert Size(rest) <= Size(a.rest);
    if NextIs(rest, Close) then Some(Answer(!a.holds, rest[1..])) else None
  }

  /** A list up to its closing parenthesis; every condition in it is run, whatever the ones before yield. */
  function CheckList(env: Env, any: bool, acc: bool, ts: seq<Token>): (r: Option<Answer>)
    ensures r.Some? ==> Size(r.value.rest) <= Size(ts)
    decreases Size(ts), 1
  {
    if NextIs(ts, Close) then Some(Answer(acc, ts[1..]))
    else
      match Check(env, ts)
      case None => None
      case Some(a) =>
        var now := if any then acc || a.holds else acc && a.holds;
        if NextIs(a.rest, Comma) then CheckList(env, any, now, a.rest[1..])
        else if NextIs(a.rest, Close) then Some(Answer(now, a.rest[1..]))
        else None
  }

  /** A parenthesised list that holds when any of its conditions does. */
  function CheckStream(env: Env, ts: seq<Token>): Option<Answer> {
    if NextIs(ts, Open) then CheckList(env, true, false, ts[1..]) else None
  }

  // ----- conditions, and what they mean

  /** A list may end in a comma.  `Quoted` is a condition that a macro has put in as a whole. */
  datatype Pred =
    | Flag(name: string)
    | KeyValue(name: string, val: string, expr: bool)
    | Any(ps: seq<Pred>, comma: bool)
    | All(ps: seq<Pred>, comma: bool)
    | Not(p: Pred, comma: bool)
    | Quoted(p: Pred)

  /** Only lists that are not empty may end in a comma. */
  predicate WellFormed(p: Pred) {
    match p
    case Any(ps, comma) => (ps == [] ==> !comma) && AllWellFormed(ps)
    case All(ps, comma) => (ps == [] ==> !comma) && AllWellFormed(ps)
    case Not(q, _) => WellFormed(q)
    case Quoted(q) => WellFormed(q) && !q.Quoted?
    case _ => true
  }

  predicate AllWellFormed(ps: seq<Pred>) {
    ps == [] || (WellFormed(ps[0]) && AllWellFormed(ps[1..]))
  }

  ghost predicate Holds(env: Env, p: Pred) {
    match p
    case Flag(name) => (exists p :: p in env.values && p.0 == name) || name in env.flags
    case KeyValue(name, val, _) =>
      || (name, val) in env.values
      || ((forall p :: p in env.values ==> p.0 != name) && name in env.fcns && env.fcns[name](val))
    case Any(ps, _) => AnyHolds(env, ps)
    case All(ps, _) => AllHold(env, ps)
    case Not(q, _) => !Holds(env, q)
    case Quoted(q) => Holds(env, q)
  }

  ghost predicate AnyHolds(env: Env, ps: seq<Pred>) {
    ps != [] && (Holds(env, ps[0]) || AnyHolds(env, ps[1..]))
  }

  ghost predicate AllHold(env: Env, ps: seq<Pred>) {
    ps == [] || (Holds(env, ps[0]) && AllHold(env, ps[1..]))
  }

  function NameOf(p: Pred): string {
    match p
    case Flag(name) => name
    case KeyValue(name, _, _) => name
    case Any(_, _) => "any"
    case All(_, _) => "all"
    case Not(_, _) => "not"
    case Quoted(q) => NameOf(q)
  }

  /** The tokens after the name. */
  function Operands(p: Pred): seq<Token>
    decreases p, 0
  {
    match p
    case Flag(_) => []
    case KeyValue(_, val, expr) => [Eq, if expr then ExprStr(val) else Str(val)]
    case Any(ps, comma) => [Open] + ListTokens(ps, comma)
    case All(ps, comma) => [Open] + ListTokens(ps, comma)
    case Not(q, comma) => [Open] + (Tokens(q) + NotEnd(comma))
    case Quoted(_) => []
  }

  function NotEnd(comma: bool): seq<Token> {
    if comma then [Comma, Close] else [Close]
  }

  function Tokens(p: Pred): seq<Token>
    decreases p, 1
  {
    if p.Quoted? then [Meta(NameOf(p.p), Operands(p.p))] else [Ident(NameOf(p))] + Operands(p)
  }

  /** A list, from after its opening parenthesis to its closing one. */
  function ListTokens(ps: seq<Pred>, comma: bool): seq<Token>
    decreases ps, 1
  {
    if ps == [] then [Close] else Tokens(ps[0]) + ListTail(ps, comma)
  }

  function ListTail(ps: seq<Pred>, comma: bool): seq<Token>
    requires ps != []
    decreases ps, 0
  {
    if |ps| == 1 then NotEnd(comma) else [Comma] + ListTokens(ps[1..], comma)
  }

  /** What may follow a condition: a name that `=` or `(` followed would be another condition. */
  predicate LegalRest(ts: seq<Token>) {
    !NextIs(ts, Eq) && !NextIs(ts, Open)
  }

  /** On the tokens of a condition the evaluator yields its truth, and leaves exactly what follows. */
  lemma {:induction false} CheckTokens(env: Env, p: Pred, rest: seq<Token>)
    requires WellFormed(p) && LegalRest(rest)
    ensures Check(env, Tokens(p) + rest) == Some(Answer(Holds(env, p), rest))
    decreases p, 2
  {
    if p.Quoted? {
      var q := p.p;
      CheckOperands(env, q, []);
      assert Operands(q) + [] == Operands(q);
      QuotedRead(env, NameOf(q), Operands(q), rest, Holds(env, q));
    } else {
      CheckOperands(env, p, rest);
      IdentRead(env, NameOf(p), Operands(p) + rest);
      Joined([Ident(NameOf(p))], Operands(p), rest);
    }
  }

  lemma QuotedRead(env: Env, name: string, toks: seq<Token>, rest: seq<Token>, holds: bool)
    requires CheckNamed(env, name, toks) == Some(Answer(holds, []))
    ensures Check(env, [Meta(name, toks)] + rest) == Some(Answer(holds, rest))
  {
    assert ([Meta(name, toks)] + rest)[1..] == rest;
  }

  lemma IdentRead(env: Env, name: string, ts: seq<Token>)
    ensures Check(env, [Ident(name)] + ts) == CheckNamed(env, name, ts)
  {
    assert ([Ident(name)] + ts)[1..] == ts;
  }

  lemma {:induction false} CheckOperands(env: Env, p: Pred, rest: seq<Token>)
    requires WellFormed(p) && !p.Quoted? && LegalRest(rest)
    ensures CheckNamed(env, NameOf(p), Operands(p) + rest) == Some(Answer(Holds(env, p), rest))
    decreases p, 1
  {
    match p
    case Flag(name) => assert [] + rest == rest;
    case KeyValue(name, val, expr) => ValueRead(env, name, if expr then ExprStr(val) else Str(val), rest);
    case Any(ps, comma) =>
      CheckListTokens(env, true, false, ps, comma, rest);
      FunctionRead(env, "any", ListTokens(ps, comma), rest);
    case All(ps, comma) =>
      CheckListTokens(env, false, true, ps, comma, rest);
      FunctionRead(env, "all", ListTokens(ps, comma), rest);
    case Not(q, comma) =>
      CheckTokens(env, q, NotEnd(comma) + rest);
      NotRead(env, Tokens(q), comma, rest, Holds(env, q));
      FunctionRead(env, "not", Tokens(q) + NotEnd(comma), rest);
  }

  lemma ValueRead(env: Env, name: string, t: Token, rest: seq<Token>)
    requires t.Str? || t.ExprStr?
    ensures CheckNamed(env, name, [Eq, t] + rest) == Some(Answer(ValueHolds(env, name, t.val), rest))
  {
    var ts := [Eq, t] + rest;
    assert ts[1..] == [t] + rest && ([t] + rest)[1..] == rest;
  }

  lemma FunctionRead(env: Env, name: string, ts: seq<Token>, rest: seq<Token>)
    ensures CheckNamed(env, name, [Open] + ts + rest) == CheckFunction(env, name, ts + rest)
  {
    assert ([Open] + ts + rest)[1..] == ts + rest;
  }

  lemma NotRead(env: Env, ts: seq<Token>, comma: bool, rest: seq<Token>, holds: bool)
    requires Check(env, ts + (NotEnd(comma) + rest)) == Some(Answer(holds, NotEnd(comma) + rest))
    ensures CheckFunction(env, "not", ts + NotEnd(comma) + rest) == Some(Answer(!holds, rest))
  {
    Joined(ts, NotEnd(comma), rest);
    NotEnds(comma, rest, holds);
  }

  lemma NotEnds(comma: bool, rest: seq<Token>, holds: bool)
    ensures EndNot(Answer(holds, NotEnd(comma) + rest)) == Some(Answer(!holds, rest))
  {
    var end := NotEnd(comma) + rest;
    if comma {
      assert end[1..] == [Close] + rest && ([Close] + rest)[1..] == rest;
    } else {
      assert end[1..] == rest;
    }
  }

  predicate Combined(any: bool, acc: bool, holds: bool) {
    if any then acc || holds else acc && holds
  }

  lemma {:induction false} CheckListTokens(env: Env, any: bool, acc: bool, ps: seq<Pred>, comma: bool, rest: seq<Token>)
    requires AllWellFormed(ps) && (ps == [] ==> !comma)
    ensures
      CheckList(env, any, acc, ListTokens(ps, comma) + rest) ==
      Some(Answer(Combined(any, acc, if any then AnyHolds(env, ps) else AllHold(env, ps)), rest))
    decreases ps, 0
  {
    if ps == [] {
      CloseRead(env, any, acc, rest);
    } else {
      var now := Combined(any, acc, Holds(env, ps[0]));
      CheckTokens(env, ps[0], ListTail(ps, comma) + rest);
      FirstRead(env, any, acc, Tokens(ps[0]), ListTail(ps, comma) + rest, Holds(env, ps[0]));
      Joined(Tokens(ps[0]), ListTail(ps, comma), rest);
      if |ps| > 1 {
        CheckListTokens(env, any, now, ps[1..], comma, rest);
        MoreRead(env, any, now, ListTokens(ps[1..], comma), rest);
      } else {
        assert ps[1..] == [];
        LastRead(env, any, now, comma, rest);
      }
    }
  }

  lemma Joined(a: seq<Token>, b: seq<Token>, c: seq<Token>)
    ensures a + b + c == a + (b + c)
  {
  }

  lemma CloseRead(env: Env, any: bool, acc: bool, rest: seq<Token>)
    ensures CheckList(env, any, acc, [Close] + rest) == Some(Answer(acc, rest))
  {
    assert ([Close] + rest)[1..] == rest;
  }

  /** How a list goes on after one of its conditions. */
  function GoOn(env: Env, any: bool, now: bool, tail: seq<Token>): Option<Answer> {
    if NextIs(tail, Comma) then CheckList(env, any, now, tail[1..])
    else if NextIs(tail, Close) then Some(Answer(now, tail[1..]))
    else None
  }

  lemma FirstRead(env: Env, any: bool, acc: bool, ts: seq<Token>, tail: seq<Token>, holds: bool)
    requires ts != [] && ts[0] != Close && Check(env, ts + tail) == Some(Answer(holds, tail))
    ensures CheckList(env, any, acc, ts + tail) == GoOn(env, any, Combined(any, acc, holds), tail)
  {
    assert (ts + tail)[0] == ts[0];
  }

  lemma MoreRead(env: Env, any: bool, now: bool, ts: seq<Token>, rest: seq<Token>)
    ensures GoOn(env, any, now, [Comma] + ts + rest) == CheckList(env, any, now, ts + rest)
  {
    assert ([Comma] + ts + rest)[1..] == ts + rest;
  }

  lemma LastRead(env: Env, any: bool, now: bool, comma: bool, rest: seq<Token>)
    ensures GoOn(env, any, now, NotEnd(comma) + rest) == Some(Answer(now, rest))
  {
    var tail := NotEnd(comma) + rest;
    if comma {
      assert tail[1..] == [Close] + rest;
      CloseRead(env, any, now, rest);
    } else {
      assert tail[1..] == rest;
    }
  }

  /** The list after `cfg` holds if any of its conditions does, and all of it is taken. */
  lemma StreamIsAny(env: Env, ps: seq<Pred>, comma: bool, rest: seq<Token>)
    requires AllWellFormed(ps) && (ps == [] ==> !comma)
    ensures CheckStream(env, [Open] + (ListTokens(ps, comma) + rest)) == Some(Answer(AnyHolds(env, ps), rest))
  {
    CheckListTokens(env, true, false, ps, comma, rest);
    assert ([Open] + (ListTokens(ps, comma) + rest))[1..] == ListTokens(ps, comma) + rest;
  }

  /** `name = "value"` holds exactly if that pair is configured, or if none with the name is and its callback
      accepts the value. */
  lemma ValueDecides(env: Env, name: string, val: string, expr: bool, rest: seq<Token>)
    ensures
      var known := exists v :: (name, v) in env.values;
      var holds := (name, val) in env.values || (!known && name in env.fcns && env.fcns[name](val));
      Check(env, [Ident(name), Eq, if expr then ExprStr(val) else Str(val)] + rest) == Some(Answer(holds, rest))
  {
    var t := if expr then ExprStr(val) else Str(val);
    IdentRead(env, name, [Eq, t] + rest);
    ValueRead(env, name, t, rest);
    assert [Ident(name), Eq, t] + rest == [Ident(name)] + ([Eq, t] + rest);
    HasValuesMeans(env, name);
  }

  /** A bare name holds exactly if any value of it is configured, or it is as a flag. */
  lemma FlagDecides(env: Env, name: string, rest: seq<Token>)
    requires LegalRest(rest)
    ensures Check(env, [Ident(name)] + rest) == Some(Answer((exists v :: (name, v) in env.values) || name in env.flags, rest))
  {
    IdentRead(env, name, rest);
    HasValuesMeans(env, name);
  }

  lemma HasValuesMeans(env: Env, name: string)
    ensures HasValues(env, name) <==> exists v :: (name, v) in env.values
  {
    if HasValues(env, name) {
      var p :| p in env.values && p.0 == name;
      assert (name, p.1) in env.values;
    }
    if v :| (name, v) in env.values {
      assert (name, v).0 == name;
    }
  }

  /** Whatever else is called like a function is an error, and `cfg(..)` is another way to write `any(..)`. */
  lemma UnknownFunction(env: Env, name: string, ts: seq<Token>)
    ensures name !in ["any", "cfg", "all", "not"] ==> Check(env, [Ident(name), Open] + ts) == None
    ensures Check(env, [Ident("cfg"), Open] + ts) == Check(env, [Ident("any"), Open] + ts)
  {
    NamedOpen(env, name, ts);
    NamedOpen(env, "cfg", ts);
    NamedOpen(env, "any", ts);
  }

  /** A condition starts with a name, or is one that a macro has put in. */
  lemma NoNameRefused(env: Env, ts: seq<Token>)
    requires ts == [] || (!ts[0].Ident? && !ts[0].Meta?)
    ensures Check(env, ts) == None
  {
  }

  /** Only a string may come after `=`. */
  lemma NoStringRefused(env: Env, name: string, ts: seq<Token>)
    requires ts == [] || (!ts[0].Str? && !ts[0].ExprStr?)
    ensures Check(env, [Ident(name), Eq] + ts) == None
  {
    assert [Ident(name), Eq] + ts == [Ident(name)] + ([Eq] + ts);
    IdentRead(env, name, [Eq] + ts);
    assert ([Eq] + ts)[1..] == ts;
  }

  /** After a condition in parentheses there must be a comma or the end, and after the one of `not` the end. */
  lemma NoCloseRefused(env: Env, p: Pred, ts: seq<Token>)
    requires WellFormed(p) && LegalRest(ts) && (ts == [] || (ts[0] != Comma && ts[0] != Close))
    ensures Check(env, [Ident("any"), Open] + (Tokens(p) + ts)) == None
    ensures Check(env, [Ident("all"), Open] + (Tokens(p) + ts)) == None
    ensures Check(env, [Ident("not"), Open] + (Tokens(p) + ts)) == None
    ensures Check(env, [Ident("not"), Open] + (Tokens(p) + ([Comma] + ts))) == None
  {
    NamedOpen(env, "any", Tokens(p) + ts);
    NamedOpen(env, "all", Tokens(p) + ts);
    NamedOpen(env, "not", Tokens(p) + ts);
    NamedOpen(env, "not", Tokens(p) + ([Comma] + ts));
    CheckTokens(env, p, ts);
    CheckTokens(env, p, [Comma] + ts);
    FirstRead(env, true, false, Tokens(p), ts, Holds(env, p));
    FirstRead(env, false, true, Tokens(p), ts, Holds(env, p));
    assert ([Comma] + ts)[1..] == ts;
  }

  lemma NamedOpen(env: Env, name: string, ts: seq<Token>)
    ensures Check(env, [Ident(name), Open] + ts) == CheckFunction(env, name, ts)
  {
    assert [Ident(name), Open] + ts == [Ident(name)] + ([Open] + ts);
    IdentRead(env, name, [Open] + ts);
    assert ([Open] + ts)[1..] == ts;
  }

  // ----- De Morgan

  function Negated(ps: seq<Pred>): (r: seq<Pred>)
    ensures |r| == |ps|
  {
    if ps == [] then [] else [Not(ps[0], false)] + Negated(ps[1..])
  }

  lemma {:induction false} NegatedHolds(env: Env, ps: seq<Pred>)
    requires AllWellFormed(ps)
    ensures AllWellFormed(Negated(ps))
    ensures AllHold(env, Negated(ps)) <==> !AnyHolds(env, ps)
    ensures AnyHolds(env, Negated(ps)) <==> !AllHold(env, ps)
    decreases ps
  {
    if ps != [] {
      NegatedHolds(env, ps[1..]);
      assert Negated(ps)[1..] == Negated(ps[1..]);
    }
  }

  /** `not(any(..))` and `all(not(..), ..)` run to the same answer on the tokens they are written with, and so do
      `not(all(..))` and `any(not(..), ..)`. */
  lemma DeMorgan(env: Env, ps: seq<Pred>, rest: seq<Token>)
    requires AllWellFormed(ps) && LegalRest(rest)
    ensures Check(env, Tokens(Not(Any(ps, false), false)) + rest) == Check(env, Tokens(All(Negated(ps), false)) + rest)
    ensures Check(env, Tokens(Not(All(ps, false), false)) + rest) == Check(env, Tokens(Any(Negated(ps), false)) + rest)
  {
    NegatedHolds(env, ps);
    CheckTokens(env, Not(Any(ps, false), false), rest);
    CheckTokens(env, All(Negated(ps), false), rest);
    CheckTokens(env, Not(All(ps, false), false), rest);
    CheckTokens(env, Any(Negated(ps), false), rest);
  }

  // ----- the evaluator as it runs

  class TokenStream {
    var toks: seq<Token>

    constructor (toks: seq<Token>)
      ensures this.toks == toks
    {
      this.toks := toks;
    }

    predicate Next(t: Token)
      reads this
    {
      NextIs(toks, t)
    }

    method Take()
      requires toks != []
      modifies this
      ensures toks == old(toks)[1..]
    {
      toks := toks[1..];
    }

    method TakeIf(t: Token) returns (took: bool)
      modifies this
      ensures took == NextIs(old(toks), t)
      ensures toks == if took then old(toks)[1..] else old(toks)
    {
      took := Next(t);
      if took {
        Take();
      }
    }
  }

  /** The state of the stream and the outcome are what the evaluator on tokens says. */
  ghost predicate Says(a: Option<Answer>, ok: bool, holds: bool, rest: seq<Token>) {
    ok == a.Some? && (ok ==> a.value == Answer(holds, rest))
  }

  method CheckCfg(env: Env, lex: TokenStream) returns (ok: bool, holds: bool)
    modifies lex
    ensures Says(Check(env, old(lex.toks)), ok, holds, lex.toks)
    decreases Size(lex.toks), 0
  {
    if |lex.toks| > 0 && lex.toks[0].Meta? {
      var meta := lex.toks[0];
      lex.Take();
      var inner := new TokenStream(meta.toks);
      ok, holds := CheckCfgNamed(env, meta.name, inner);
    } else if |lex.toks| > 0 && lex.toks[0].Ident? {
      var name := lex.toks[0].name;
      lex.Take();
      ok, holds := CheckCfgNamed(env, name, lex);
    } else {
      ok, holds := false, false;
    }
  }

  method CheckCfgNamed(env: Env, name: string, lex: TokenStream) returns (ok: bool, holds: bool)
    modifies lex
    ensures Says(CheckNamed(env, name, old(lex.toks)), ok, holds, lex.toks)
    decreases Size(lex.toks), 1
  {
    ok, holds := false, false;
    if lex.Next(Eq) {
      lex.Take();
      if |lex.toks| > 0 && (lex.toks[0].Str? || lex.toks[0].ExprStr?) {
        ok, holds := true, ValueHolds(env, name, lex.toks[0].val);
        lex.Take();
      }
    } else if lex.Next(Open) {
      lex.Take();
      if name == "any" || name == "cfg" {
        ok, holds := CheckCfgList(env, true, lex);
      } else if name == "not" {
        ok, holds := CheckCfg(env, lex);
        if ok {
          var _ := lex.TakeIf(Comma);
          ok := lex.TakeIf(Close);
          holds := !holds;
        }
      } else if name == "all" {
        ok, holds := CheckCfgList(env, false, lex);
      }
    } else {
      ok, holds := true, FlagHolds(env, name);
    }
  }

  method CheckCfgList(env: Env, any: bool, lex: TokenStream) returns (ok: bool, holds: bool)
    modifies lex
    ensures Says(CheckList(env, any, !any, old(lex.toks)), ok, holds, lex.toks)
    decreases Size(lex.toks), 1
  {
    holds := !any;
    var more := true;
    while more && !lex.Next(Close)
      invariant more ==> CheckList(env, any, holds, lex.toks) == CheckList(env, any, !any, old(lex.toks))
      invariant more ==> Size(lex.toks) <= Size(old(lex.toks))
      invariant !more ==>
        CheckList(env, any, !any, old(lex.toks)) == if lex.Next(Close) then Some(Answer(holds, lex.toks[1..])) else None
      decreases more, Size(lex.toks)
    {
      var done, h := CheckCfg(env, lex);
      if !done {
        return false, holds;
      }
      holds := if any then holds || h else holds && h;
      more := lex.TakeIf(Comma);
    }
    ok := lex.TakeIf(Close);
  }

  method CheckCfgStream(env: Env, lex: TokenStream) returns (ok: bool, holds: bool)
    modifies lex
    ensures Says(CheckStream(env, old(lex.toks)), ok, holds, lex.toks)
  {
    ok, holds := false, false;
    if lex.Next(Open) {
      lex.Take();
      ok, holds := CheckCfgList(env, true, lex);
    }
  }
}
