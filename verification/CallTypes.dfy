/** Which frame types are recognised, however they are spelled (jsonrpc/endpoints_eth_xlayer.go:139-142). */
module CallTypes {
  import opened InnerTxs

  /** `c` is `d`, a lower-case letter or a digit, or one of the capitals that become it. */
  predicate Spells(c: char, d: char) {
    || c == d
    || ('A' <= c <= 'Z' && c as int + 32 == d as int)
    || (c == '\U{130}' && d == 'i')
    || (c == '\U{212A}' && d == 'k')
  }

  /** The type is the name, with the case of its letters ignored. */
  predicate Spelled(typ: string, name: string) {
    |typ| == |name| && forall i :: 0 <= i < |typ| ==> Spells(typ[i], name[i])
  }

  predicate IsCallType(typ: string) {
    || Spelled(typ, "call") || Spelled(typ, "create") || Spelled(typ, "create2") || Spelled(typ, "callcode")
    || Spelled(typ, "delegatecall") || Spelled(typ, "staticcall") || Spelled(typ, "selfdestruct")
  }

  predicate IsLower(name: string) {
    forall i :: 0 <= i < |name| ==> 'a' <= name[i] <= 'z' || '0' <= name[i] <= '9'
  }

  lemma {:induction false} LowerIff(typ: string, name: string)
    requires IsLower(name)
    ensures Lower(typ) == name <==> Spelled(typ, name)
    decreases typ
  {
    if typ != [] && name != [] {
      LowerIff(typ[1..], name[1..]);
      assert typ == [typ[0]] + typ[1..] && name == [name[0]] + name[1..];
      assert Lower(typ)[1..] == Lower(typ[1..]);
      if Spelled(typ[1..], name[1..]) && Spells(typ[0], name[0]) {
        assert forall i :: 0 < i < |typ| ==> typ[i] == typ[1..][i - 1] && name[i] == name[1..][i - 1];
      }
      if Spelled(typ, name) {
        assert forall i :: 0 <= i < |typ| - 1 ==> typ[1..][i] == typ[i + 1] && name[1..][i] == name[i + 1];
      }
    }
  }

  /** A frame is recognised exactly when its type is one of the seven names, in any spelling. */
  lemma KnownIff(f: Frame)
    ensures Known(f) <==> IsCallType(f.typ)
  {
    LowerIff(f.typ, "call");
    LowerIff(f.typ, "create");
    LowerIff(f.typ, "create2");
    LowerIff(f.typ, "callcode");
    LowerIff(f.typ, "delegatecall");
    LowerIff(f.typ, "staticcall");
    LowerIff(f.typ, "selfdestruct");
  }

  predicate SameLetter(c: char, d: char) {
    || c == d
    || ('A' <= c <= 'Z' && c as int + 32 == d as int)
    || ('A' <= d <= 'Z' && d as int + 32 == c as int)
  }

  /** The case of the letters makes no difference to what is recognised, nor to what it is called. */
  lemma {:induction false} CaseDoesNotMatter(s: string, t: string)
    requires |s| == |t| && forall i :: 0 <= i < |s| ==> SameLetter(s[i], t[i])
    ensures Lower(s) == Lower(t)
    decreases s
  {
    if s != [] {
      assert SameLetter(s[0], t[0]);
      assert forall i :: 0 <= i < |s[1..]| ==> s[1..][i] == s[i + 1] && t[1..][i] == t[i + 1];
      CaseDoesNotMatter(s[1..], t[1..]);
    }
  }

  /** What a recognised frame is called is the name its type spells. */
  lemma LowerOfKnown(f: Frame)
    requires Known(f)
    ensures Spelled(f.typ, Lower(f.typ)) && '_' !in Lower(f.typ)
  {
    assert forall i :: 0 <= i < |CALL_TYPES| ==> IsLower(CALL_TYPES[i]);
    LowerIff(f.typ, Lower(f.typ));
  }
}
