/** `cfg_attr` attributes, replaced in place by what they hold, or dropped. */
module CfgAttr {
  import opened Wrappers
  import Cfg

  /** An attribute; a `cfg_attr` has the tokens of a condition, and the attributes it stands for. */
  datatype Attr =
    | Plain(name: string, data: string)
    | Conditional(cond: seq<Cfg.Token>, items: seq<Attr>)

  /** What a `cfg_attr` stands for.  After its condition there must be a comma, or the end if nothing comes after. */
  function Check(env: Cfg.Env, a: Attr): (r: Option<seq<Attr>>)
    requires a.Conditional?
    ensures r.Some? ==> r.value == a.items || r.value == []
  {
    var end := [if a.items == [] then Cfg.Close else Cfg.Comma];
    match Cfg.Check(env, a.cond + end)
    case None => None
    case Some(c) => if c.rest != end then None else Some(if c.holds then a.items else [])
  }

  /** The attributes that are meant: conditions resolved, to any depth, and the order kept. */
  function Flatten(env: Cfg.Env, attrs: seq<Attr>): Option<seq<Attr>>
    decreases attrs
  {
    if attrs == [] then Some([])
    else
      var a := attrs[0];
      var first :=
        if a.Plain? then Some([a])
        else
          match Check(env, a)
          case None => None
          case Some(items) => if items == [] then Some([]) else Flatten(env, a.items);
      Append(first, Flatten(env, attrs[1..]))
  }

  function Append(a: Option<seq<Attr>>, b: Option<seq<Attr>>): Option<seq<Attr>> {
    if a.Some? && b.Some? then Some(a.value + b.value) else None
  }

  predicate NoConditions(attrs: seq<Attr>) {
    forall i :: 0 <= i < |attrs| ==> attrs[i].Plain?
  }

  /** What is still to be looked at, counted with all that is inside. */
  function Weight(attrs: seq<Attr>): nat
    decreases attrs
  {
    if attrs == [] then 0
    else 1 + (if attrs[0].Conditional? then Weight(attrs[0].items) else 0) + Weight(attrs[1..])
  }

  lemma {:induction false} WeightConcat(a: seq<Attr>, b: seq<Attr>)
    ensures Weight(a + b) == Weight(a) + Weight(b)
    decreases a
  {
    if a == [] {
      assert a + b == b;
    } else {
      WeightConcat(a[1..], b);
      assert (a + b)[0] == a[0] && (a + b)[1..] == a[1..] + b;
    }
  }

  lemma {:induction false} FlattenConcat(env: Cfg.Env, a: seq<Attr>, b: seq<Attr>)
    ensures Flatten(env, a + b) == Append(Flatten(env, a), Flatten(env, b))
    decreases a
  {
    if a == [] {
      assert a + b == b;
      assert Flatten(env, b).Some? ==> [] + Flatten(env, b).value == Flatten(env, b).value;
    } else {
      FlattenConcat(env, a[1..], b);
      assert (a + b)[0] == a[0] && (a + b)[1..] == a[1..] + b;
      var first := Flatten(env, [a[0]]);
      FlattenOne(env, a[0], a[1..]);
      FlattenOne(env, a[0], a[1..] + b);
      assert a == [a[0]] + a[1..] && a + b == [a[0]] + (a[1..] + b);
      AppendAssoc(first, Flatten(env, a[1..]), Flatten(env, b));
    }
  }

  lemma FlattenOne(env: Cfg.Env, a: Attr, rest: seq<Attr>)
    ensures Flatten(env, [a] + rest) == Append(Flatten(env, [a]), Flatten(env, rest))
  {
    assert ([a] + rest)[1..] == rest && [a][1..] == [];
    assert forall s: seq<Attr> :: s + [] == s;
  }

  lemma AppendAssoc(a: Option<seq<Attr>>, b: Option<seq<Attr>>, c: Option<seq<Attr>>)
    ensures Append(Append(a, b), c) == Append(a, Append(b, c))
  {
    if a.Some? && b.Some? && c.Some? {
      assert a.value + b.value + c.value == a.value + (b.value + c.value);
    }
  }

  /** No condition is left, at any depth. */
  lemma {:induction false} FlattenPlain(env: Cfg.Env, attrs: seq<Attr>)
    requires Flatten(env, attrs).Some?
    ensures NoConditions(Flatten(env, attrs).value)
    decreases attrs
  {
    if attrs != [] {
      FlattenPlain(env, attrs[1..]);
      var a := attrs[0];
      if a.Conditional? && Check(env, a).value != [] {
        FlattenPlain(env, a.items);
      }
    }
  }

  /** A second run changes nothing. */
  lemma {:induction false} FlattenAgain(env: Cfg.Env, attrs: seq<Attr>)
    requires NoConditions(attrs)
    ensures Flatten(env, attrs) == Some(attrs)
    decreases attrs
  {
    if attrs != [] {
      FlattenAgain(env, attrs[1..]);
      assert attrs == [attrs[0]] + attrs[1..];
    }
  }

  /** A `cfg_attr` whose condition is written out is replaced by its attributes if it holds, and dropped if not. */
  lemma ConditionDecides(env: Cfg.Env, p: Cfg.Pred, items: seq<Attr>)
    requires Cfg.WellFormed(p)
    ensures Check(env, Conditional(Cfg.Tokens(p), items)) == Some(if Cfg.Holds(env, p) then items else [])
  {
    Cfg.CheckTokens(env, p, [if items == [] then Cfg.Close else Cfg.Comma]);
  }

  /** What takes the place of a `cfg_attr` means the same, and there is less of it. */
  lemma Resolved(env: Cfg.Env, a: Attr, made: seq<Attr>)
    requires a.Conditional? && Check(env, a) == Some(made)
    ensures Flatten(env, [a]) == Flatten(env, made)
    ensures Weight(made) <= Weight(a.items)
  {
    assert [a][1..] == [];
    if Flatten(env, made).Some? {
      assert Flatten(env, made).value + [] == Flatten(env, made).value;
    }
  }

  lemma Unresolved(env: Cfg.Env, a: Attr)
    requires a.Conditional? && Check(env, a).None?
    ensures Flatten(env, [a]).None?
  {
  }

  /** With `done` finished and `rest` to go, the whole comes to `total`. */
  ghost predicate UnderWay(env: Cfg.Env, total: Option<seq<Attr>>, done: seq<Attr>, rest: seq<Attr>) {
    NoConditions(done) && Append(Some(done), Flatten(env, rest)) == total
  }

  lemma Starts(env: Cfg.Env, attrs: seq<Attr>)
    ensures UnderWay(env, Flatten(env, attrs), [], attrs)
  {
    if Flatten(env, attrs).Some? {
      assert [] + Flatten(env, attrs).value == Flatten(env, attrs).value;
    }
  }

  lemma Ends(env: Cfg.Env, total: Option<seq<Attr>>, done: seq<Attr>)
    requires UnderWay(env, total, done, [])
    ensures total == Some(done)
  {
    assert done + [] == done;
  }

  lemma Kept(env: Cfg.Env, total: Option<seq<Attr>>, done: seq<Attr>, a: Attr, rest: seq<Attr>)
    requires UnderWay(env, total, done, [a] + rest) && a.Plain?
    ensures UnderWay(env, total, done + [a], rest) && Weight(rest) < Weight([a] + rest)
  {
    FlattenOne(env, a, rest);
    FlattenAgain(env, [a]);
    AppendAssoc(Some(done), Some([a]), Flatten(env, rest));
    WeightConcat([a], rest);
    assert [a][1..] == [];
  }

  lemma Replaced(env: Cfg.Env, total: Option<seq<Attr>>, done: seq<Attr>, a: Attr, rest: seq<Attr>, made: seq<Attr>)
    requires UnderWay(env, total, done, [a] + rest) && a.Conditional? && Check(env, a) == Some(made)
    ensures UnderWay(env, total, done, made + rest) && Weight(made + rest) < Weight([a] + rest)
  {
    FlattenOne(env, a, rest);
    FlattenConcat(env, made, rest);
    Resolved(env, a, made);
    WeightConcat(made, rest);
    WeightConcat([a], rest);
    assert [a][1..] == [];
  }

  lemma Refused(env: Cfg.Env, total: Option<seq<Attr>>, done: seq<Attr>, a: Attr, rest: seq<Attr>)
    requires UnderWay(env, total, done, [a] + rest) && a.Conditional? && Check(env, a).None?
    ensures total.None?
  {
    FlattenOne(env, a, rest);
    Unresolved(env, a);
  }

  class AttributeList {
    var items: seq<Attr>

    constructor (items: seq<Attr>)
      ensures this.items == items
    {
      this.items := items;
    }

    /** Goes over the list once; what takes the place of a `cfg_attr` is looked at again. */
    method ExpandCfgAttr(env: Cfg.Env) returns (ok: bool)
      modifies this
      ensures ok == Flatten(env, old(items)).Some?
      ensures ok ==> items == Flatten(env, old(items)).value && NoConditions(items)
    {
      var i := 0;
      ghost var total := Flatten(env, items);
      Starts(env, items);
      assert items[..0] == [] && items[0..] == items;
      while i < |items|
        invariant 0 <= i <= |items|
        invariant UnderWay(env, total, items[..i], items[i..])
        decreases Weight(items[i..])
      {
        var a := items[i];
        ghost var done, rest := items[..i], items[i + 1..];
        assert items[i..] == [a] + rest;
        if a.Conditional? {
          var made := Check(env, a);
          if made.None? {
            Refused(env, total, done, a, rest);
            return false;
          }
          Replaced(env, total, done, a, rest, made.value);
          items := items[..i] + made.value + items[i + 1..];
          assert items[..i] == done && items[i..] == made.value + rest;
        } else {
          Kept(env, total, done, a, rest);
          i := i + 1;
          assert items[..i] == done + [a] && items[i..] == rest;
        }
      }
      assert items[..i] == items && items[i..] == [];
      Ends(env, total, items);
      ok := true;
    }
  }
}
