/** The parser as it runs: a position that moves through the format string, and the tables of arguments
    that it fills.  It is proved to compute `FormatArgs.Parse`. */
module FormatParser {
  import opened Wrappers
  import opened Utf8
  import opened FormatArgs
  import Decimal

  class Parser {
    const format: string
    const nFree: nat
    var s: nat
    var nextFree: nat
    var named: map<string, nat>
    var namedArgs: seq<string>
    var args: Args

    constructor (format: string, nFree: nat, named: map<string, nat>, namedArgs: seq<string>)
      requires Bytes(format)
      ensures Valid() && this.format == format && this.nFree == nFree && s == 0 && nextFree == 0
      ensures this.named == named && this.namedArgs == namedArgs
    {
      this.format, this.nFree, this.named, this.namedArgs := format, nFree, named, namedArgs;
      s, nextFree, args := 0, 0, DEFAULTS;
    }

    ghost predicate Valid()
      reads this
    {
      Bytes(format) && s <= |format|
    }

    ghost function Rest(): (t: string)
      reads this
      requires Valid()
      ensures Bytes(t)
    {
      format[s..]
    }

    ghost function Tables(): Names
      reads this
    {
      Names(named, namedArgs)
    }

    /** How far the parser is. */
    ghost function Here(): Spec
      reads this
      requires Valid()
    {
      Spec(args, Tables(), nextFree, Rest())
    }

    /** The character `k` places on. */
    function Peek(k: nat): (c: char)
      reads this
      requires Valid()
      ensures c == At(Rest(), k)
    {
      At(format, s + k)
    }

    /** One byte on. */
    method Advance(n: nat)
      requires Valid() && n <= |Rest()|
      modifies `s
      ensures Valid() && Rest() == old(Rest())[n..]
    {
      s := s + n;
    }

    method GetNamedArg(name: string) returns (index: nat)
      requires Valid()
      modifies `named, `namedArgs
      ensures index >= nFree && Slot(Tables(), index - nFree) == GetNamed(old(Tables()), name)
    {
      if name !in named {
        named := named[name := |namedArgs|];
        namedArgs := namedArgs + [name];
      }
      index := nFree + named[name];
    }

    method Digits() returns (val: nat)
      requires Valid()
      modifies `s
      ensures Valid() && Number(val, Rest()) == ReadNumber(old(Rest()), 0)
    {
      val := 0;
      while Decimal.IsDigit(Peek(0))
        invariant Valid() && ReadNumber(Rest(), val) == ReadNumber(old(Rest()), 0)
        decreases |format| - s
      {
        ghost var t := Rest();
        val := (val * 10 + Decimal.DigitValue(Peek(0))) % WRAP;
        s := s + 1;
        assert Rest() == t[1..];
      }
    }

    /** A name, from the position on. */
    method Name() returns (name: string)
      requires Valid()
      modifies `s
      ensures Valid() && name == old(Rest())[..NameLength(old(Rest()))] && Rest() == old(Rest())[NameLength(old(Rest()))..]
    {
      var start := s;
      while IsNameByte(Peek(0))
        invariant Valid() && start <= s && s - start + NameLength(Rest()) == NameLength(old(Rest()))
        decreases |format| - s
      {
        ghost var t := Rest();
        s := s + 1;
        assert Rest() == t[1..];
      }
      name := format[start..s];
    }

    method AlignPart() returns (ok: bool)
      requires Valid()
      modifies `s, `args
      ensures Valid() && ok == ParseAlign(old(Here())).Some?
      ensures ok ==> Here() == ParseAlign(old(Here())).value
    {
      var d := ParseUtf8(format[s..]);
      if d.None? {
        return false;
      }
      ok := true;
      var ch, length := d.value.ch, d.value.length;
      if s + length <= |format| && ch != '}' as nat && IsAlign(Peek(length)) {
        args := args.(fill := ch);
        Advance(length);
      }
      var c := Peek(0);
      if c == '<' {
        args := args.(align := Left);
        Advance(1);
      } else if c == '^' {
        args := args.(align := Center);
        Advance(1);
      } else if c == '>' {
        args := args.(align := Right);
        Advance(1);
      }
    }

    method SignPart()
      requires Valid()
      modifies `s, `args
      ensures Valid() && Here() == ParseSign(old(Here()))
    {
      if Peek(0) == '+' {
        args := args.(sign := Plus);
        Advance(1);
      } else if Peek(0) == '-' {
        args := args.(sign := Minus);
        Advance(1);
      }
    }

    method AlternatePart()
      requires Valid()
      modifies `s, `args
      ensures Valid() && Here() == ParseAlternate(old(Here()))
    {
      if Peek(0) == '#' {
        args := args.(alternate := true);
        Advance(1);
      }
    }

    method ZeroPart()
      requires Valid()
      modifies `s, `args
      ensures Valid() && Here() == ParseZero(old(Here()))
    {
      if Peek(0) == '0' && Peek(1) != '$' {
        args := args.(zeroPad := true, fill := '0' as nat);
        Advance(1);
      }
    }

    /** A number or name that may stand for an argument; a name that no `$` follows is put back. */
    method CountPart() returns (isArg: bool, val: Option<nat>)
      requires Valid()
      modifies `s, `named, `namedArgs
      ensures Valid()
      ensures
        var c := ReadCount(old(Rest()));
        && Rest() == c.rest
        && (c.count.ArgNamed? <==> val.Some? && isArg && old(!Decimal.IsDigit(Peek(0))))
        && (match c.count
            case NoCount => val.None? && Tables() == old(Tables())
            case Fixed(n) => val == Some(n) && !isArg && Tables() == old(Tables())
            case ArgNumber(n) => val == Some(n) && isArg && Tables() == old(Tables())
            case ArgNamed(name) =>
              var g := GetNamed(old(Tables()), name);
              val == Some(nFree + g.at) && Tables() == g.names)
    {
      ghost var t := Rest();
      isArg, val := false, None;
      if Decimal.IsDigit(Peek(0)) {
        var n := Digits();
        val := Some(n);
        if Peek(0) == '$' {
          isArg := true;
          s := s + 1;
          assert Rest() == ReadNumber(t, 0).rest[1..];
        }
      } else if IsAlpha(Peek(0)) {
        var start := s;
        var name := Name();
        if Peek(0) == '$' {
          var index := GetNamedArg(name);
          isArg, val := true, Some(index);
          s := s + 1;
          assert Rest() == t[NameLength(t) + 1..];
        } else {
          s := start;
        }
      }
    }

    method WidthPart()
      requires Valid()
      modifies `s, `args, `named, `namedArgs
      ensures Valid() && Here() == ParseWidth(old(Here()), nFree)
    {
      var isArg, val := CountPart();
      if val.Some? {
        args := args.(width := val.value);
        if isArg {
          args := args.(widthIsArg := true);
        }
      }
    }

    method PrecisionPart() returns (ok: bool)
      requires Valid()
      modifies `s, `args, `named, `namedArgs, `nextFree
      ensures Valid() && ok == ParsePrecision(old(Here()), nFree).Some?
      ensures ok ==> Here() == ParsePrecision(old(Here()), nFree).value
    {
      ghost var t := Rest();
      if Peek(0) != '.' {
        return true;
      }
      s := s + 1;
      assert Rest() == t[1..];
      if Peek(0) == '*' {
        args := args.(precIsArg := true);
        if nextFree == nFree {
          return false;
        }
        args := args.(prec := nextFree);
        nextFree := nextFree + 1;
      } else if Decimal.IsDigit(Peek(0)) || IsAlpha(Peek(0)) {
        var isArg, val := CountPart();
        if val.Some? {
          args := args.(prec := val.value);
          if isArg {
            args := args.(precIsArg := true);
          }
        }
      } else {
        return false;
      }
      ok := true;
    }

    method TraitPart() returns (ok: bool, traitName: string)
      requires Valid()
      modifies `s, `args
      ensures Valid() && ok == ParseTrait(old(args), old(Rest())).Some?
      ensures ok ==> Typed(traitName, args, Rest()) == ParseTrait(old(args), old(Rest())).value
    {
      ghost var t := Rest();
      traitName := "Display";
      if s == |format| {
        return false, traitName;
      }
      ok := true;
      if Peek(0) == '}' {
      } else if Peek(1) == '}' {
        traitName := TraitOf(Peek(0));
        ok := traitName != "";
        s := s + 1;
        assert Rest() == t[1..];
      } else {
        traitName := "Debug";
        if Peek(0) == 'x' && Peek(1) == '?' && Peek(2) == '}' {
          args := args.(debug := LowerHexDebug);
        } else if Peek(0) == 'X' && Peek(1) == '?' && Peek(2) == '}' {
          args := args.(debug := UpperHexDebug);
        } else {
          ok := false;
        }
      }
    }

    method ArgPart() returns (ok: bool, index: Option<nat>)
      requires Valid()
      modifies `s, `named, `namedArgs
      ensures Valid() && ok == ParseArg(old(Rest()), old(Tables()), nFree).Some?
      ensures ok ==> Arg(index, Tables(), Rest()) == ParseArg(old(Rest()), old(Tables()), nFree).value
    {
      ok, index := true, None;
      if Peek(0) != ':' && Peek(0) != '}' {
        if Decimal.IsDigit(Peek(0)) {
          var n := Digits();
          ok := n < nFree;
          index := Some(n);
        } else {
          var name := Name();
          var n := GetNamedArg(name);
          index := Some(n);
        }
      }
    }

    /** A fragment, from after its opening brace to its last character. */
    method FragPart() returns (ok: bool, index: nat, traitName: string)
      requires Valid()
      modifies `s, `args, `named, `namedArgs, `nextFree
      ensures Valid() && ok == ParseFrag(old(Rest()), old(Tables()), old(nextFree), nFree).Some?
      ensures ok ==>
        OneFrag(index, traitName, args, Tables(), nextFree, Rest()) == ParseFrag(old(Rest()), old(Tables()), old(nextFree), nFree).value
    {
      index, traitName := 0, "Display";
      var given;
      ok, given := ArgPart();
      if ok {
        ok, index, traitName := AfterArg(given);
      }
    }

    method AfterArg(given: Option<nat>) returns (ok: bool, index: nat, traitName: string)
      requires Valid()
      modifies `s, `args, `named, `namedArgs, `nextFree
      ensures Valid() && ok == ParseOptions(Arg(given, old(Tables()), old(Rest())), old(nextFree), nFree).Some?
      ensures ok ==>
        OneFrag(index, traitName, args, Tables(), nextFree, Rest())
        == ParseOptions(Arg(given, old(Tables()), old(Rest())), old(nextFree), nFree).value
    {
      args := DEFAULTS;
      index, traitName := 0, "Display";
      ok := true;
      if Peek(0) == ':' {
        ok, traitName := OptionsPart();
      } else if Peek(0) != '}' {
        ok := false;
      }
      if ok {
        ok, index := IndexPart(given);
      }
    }

    /** A fragment that names no argument takes the next free one. */
    method IndexPart(given: Option<nat>) returns (ok: bool, index: nat)
      modifies `nextFree
      ensures ok == (given.Some? || old(nextFree) != nFree)
      ensures ok ==> index == (if given.Some? then given.value else old(nextFree))
      ensures ok ==> nextFree == (if given.Some? then old(nextFree) else old(nextFree) + 1)
    {
      ok, index := true, 0;
      if given.Some? {
        index := given.value;
      } else if nextFree == nFree {
        ok := false;
      } else {
        index := nextFree;
        nextFree := nextFree + 1;
      }
    }

    method OptionsPart() returns (ok: bool, traitName: string)
      requires Valid() && Peek(0) == ':'
      modifies `s, `args, `named, `namedArgs, `nextFree
      ensures Valid()
      ensures
        var p := ParseSpec(old(Here()).(rest := old(Rest())[1..]), nFree);
        && ok == (p.Some? && ParseTrait(p.value.args, p.value.rest).Some?)
        && (ok ==> Typed(traitName, args, Rest()) == ParseTrait(p.value.args, p.value.rest).value && Tables() == p.value.names && nextFree == p.value.nextFree)
    {
      ghost var t := Rest();
      traitName := "Display";
      s := s + 1;
      assert Rest() == t[1..];
      ok := AlignPart();
      if ok {
        SignPart();
        AlternatePart();
        ZeroPart();
        WidthPart();
        ok := PrecisionPart();
        if ok {
          ok, traitName := TraitPart();
        }
      }
    }

    /** The whole string. */
    method ParseFormatString() returns (r: Option<Parsed>)
      requires Valid() && s == 0
      modifies this
      ensures r == Parse(format, "", [], old(Tables()), old(nextFree), nFree)
    {
      var frags: seq<Frag>, literal := [], "";
      assert format[0..] == format;
      while s < |format|
        invariant Valid()
        invariant Parse(Rest(), literal, frags, Tables(), nextFree, nFree) == Parse(format, "", [], old(Tables()), old(nextFree), nFree)
        decreases |format| - s
      {
        ghost var t := Rest();
        if Peek(0) != '{' {
          literal := literal + [Peek(0)];
          if Peek(0) == '}' && Peek(1) == '}' {
            s := s + 1;
          }
          s := s + 1;
        } else {
          s := s + 1;
          assert Rest() == t[1..];
          if Peek(0) == '{' {
            literal := literal + "{";
            s := s + 1;
            assert Rest() == t[2..];
          } else {
            var ok, index, traitName := FragPart();
            if !ok {
              return None;
            }
            frags := frags + [Frag(literal, index, traitName, args)];
            literal := "";
            t := Rest();
            s := s + 1;
            assert Rest() == t[1..];
          }
        }
      }
      assert Rest() == [];
      r := Some(Parsed(frags, literal, Names(named, namedArgs)));
    }
  }
}
