/** The arguments of `format_args!`: how they are collected, and that every fragment finds its own among them. */
module FormatArguments {
  import opened Sequences
  import opened Wrappers
  import opened Utf8
  import opened FormatArgs
  import opened FormatNumbering
  import opened FormatParser

  /** An argument after the format string; its value is not looked at. */
  datatype Given = Named(name: string) | Free

  datatype Collected = Collected(names: Names, nFree: nat)

  function NameOf(g: Given): seq<string> {
    if g.Named? then [g.name] else []
  }

  function NamesIn(given: seq<Given>): seq<string> {
    if given == [] then [] else NameOf(given[0]) + NamesIn(given[1..])
  }

  function FreeIn(given: seq<Given>): nat {
    if given == [] then 0 else (if given[0].Free? then 1 else 0) + FreeIn(given[1..])
  }

  predicate Repeats(names: seq<string>) {
    exists i, j :: 0 <= i < j < |names| && names[i] == names[j]
  }

  lemma {:induction false} NamesSnoc(given: seq<Given>, g: Given)
    ensures NamesIn(given + [g]) == NamesIn(given) + NameOf(g)
  {
    if given == [] {
      assert [g][1..] == [];
    } else {
      assert (given + [g])[1..] == given[1..] + [g];
      NamesSnoc(given[1..], g);
      Assoc(NameOf(given[0]), NamesIn(given[1..]), NameOf(g));
    }
  }

  lemma {:induction false} FreeSnoc(given: seq<Given>, g: Given)
    ensures FreeIn(given + [g]) == FreeIn(given) + (if g.Free? then 1 else 0)
  {
    if given == [] {
      assert [g][1..] == [];
    } else {
      assert (given + [g])[1..] == given[1..] + [g];
      FreeSnoc(given[1..], g);
    }
  }

  lemma {:induction false} NamesPrefix(given: seq<Given>, k: nat)
    requires k <= |given|
    ensures NamesIn(given[..k]) <= NamesIn(given)
  {
    if k > 0 {
      assert given[..k][1..] == given[1..][..k - 1];
      NamesPrefix(given[1..], k - 1);
    }
  }

  /** Each name with its place. */
  function Table(names: seq<string>): Names {
    Names(map n | n in names :: Position(names, n), names)
  }

  lemma OneToOneOnce(names: Names)
    requires OneToOne(names)
    ensures !Repeats(names.args) && names == Table(names.args)
  {
    forall n | n in names.index
      ensures n in names.args && names.index[n] == Position(names.args, n)
    {
      assert names.args[names.index[n]] == n;
    }
  }

  /** A name that comes again makes the names repeat. */
  lemma RepeatsAgain(given: seq<Given>, k: nat, name: string)
    requires k < |given| && given[k] == Named(name) && name in NamesIn(given[..k])
    ensures Repeats(NamesIn(given))
  {
    var before := NamesIn(given[..k]);
    var i :| 0 <= i < |before| && before[i] == name;
    assert given[..k + 1] == given[..k] + [given[k]];
    NamesSnoc(given[..k], given[k]);
    NamesPrefix(given, k + 1);
    assert NamesIn(given)[i] == NamesIn(given)[|before|] == name;
  }

  /** Names get their places in the order in which they are given; a name given twice is an error. */
  method CollectArguments(given: seq<Given>) returns (r: Option<Collected>)
    ensures r.None? <==> Repeats(NamesIn(given))
    ensures r.Some? ==> OneToOne(r.value.names) && r.value == Collected(Table(NamesIn(given)), FreeIn(given))
  {
    var index: map<string, nat>, namedArgs: seq<string>, nFree := map[], [], 0;
    for k := 0 to |given|
      invariant OneToOne(Names(index, namedArgs))
      invariant namedArgs == NamesIn(given[..k]) && nFree == FreeIn(given[..k])
    {
      assert given[..k + 1] == given[..k] + [given[k]];
      NamesSnoc(given[..k], given[k]);
      FreeSnoc(given[..k], given[k]);
      match given[k] {
        case Named(name) =>
          if name in index {
            assert namedArgs[index[name]] == name;
            RepeatsAgain(given, k, name);
            return None;
          }
          index := index[name := |namedArgs|];
          namedArgs := namedArgs + [name];
        case Free =>
          nFree := nFree + 1;
      }
    }
    assert given[..|given|] == given;
    OneToOneOnce(Names(index, namedArgs));
    r := Some(Collected(Names(index, namedArgs), nFree));
  }

  /** Collects the arguments and reads the format string: given names keep their places, names that only the string
      has come after them, and every fragment has the arguments that it says. */
  method ExpandArguments(given: seq<Given>, format: string) returns (r: Option<Parsed>)
    requires Bytes(format)
    ensures r == if Repeats(NamesIn(given)) then None else Parse(format, "", [], Table(NamesIn(given)), 0, FreeIn(given))
    ensures r.Some? ==>
      && NamesIn(given) <= r.value.names.args && !Repeats(r.value.names.args)
      && AllResolved(r.value.frags, Uses(format, Table(NamesIn(given)), 0, FreeIn(given)), r.value.names, FreeIn(given))
  {
    var args := CollectArguments(given);
    if args.None? {
      return None;
    }
    var names, nFree := args.value.names, args.value.nFree;
    var parser := new Parser(format, nFree, names.index, names.args);
    r := parser.ParseFormatString();
    ParseNumbers(format, "", [], [], names, 0, nFree);
    assert [] + Uses(format, names, 0, nFree) == Uses(format, names, 0, nFree);
    if r.Some? {
      OneToOneOnce(r.value.names);
    }
  }
}
