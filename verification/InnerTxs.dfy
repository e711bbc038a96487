/** Flattening a call trace into the list of inner transactions (jsonrpc/endpoints_eth_xlayer.go:114-229). */
module InnerTxs {
  import opened Wrappers
  import opened Decimal

  /** A frame of the trace; `data` stands for the fields that are copied as they are. */
  datatype Frame = Frame(typ: string, to: Option<string>, error: string, data: nat, calls: seq<Frame>)

  datatype InnerTx = InnerTx(
    depth: nat, internalIndex: nat, name: string, callType: string, to: string, codeAddress: string,
    error: string, isError: bool, data: nat)

  /** strings.ToLower where it matters: only these characters become ASCII lower-case letters. */
  function LowerChar(c: char): char {
    if 'A' <= c <= 'Z' then (c as int + 32) as char
    else if c == '\U{130}' then 'i'
    else if c == '\U{212A}' then 'k'
    else c
  }

  function Lower(s: string): string {
    if s == [] then [] else [LowerChar(s[0])] + Lower(s[1..])
  }

  const CALL_TYPES := ["call", "create", "create2", "callcode", "delegatecall", "staticcall", "selfdestruct"]

  predicate Known(f: Frame) {
    Lower(f.typ) in CALL_TYPES
  }

  /** A callcode frame has a target; without one the conversion panics. */
  predicate HasTarget(f: Frame) {
    Lower(f.typ) == "callcode" ==> f.to.Some?
  }

  function ToInnerTx(f: Frame, name: string, depth: nat, index: nat, isError: bool): InnerTx
    requires index >= 1
  {
    var to := if f.to.Some? then f.to.value else "";
    InnerTx(depth, index - 1, name, Lower(f.typ), to, if Lower(f.typ) == "callcode" then to else "",
            f.error, isError, f.data)
  }

  // What the list is meant to be

  /** The i-th call of a frame is its child number i, from 1. */
  type Path = seq<nat>

  datatype Visit = Visit(path: Path, frame: Frame, isError: bool)

  function Suffix(path: Path): string {
    if path == [] then "" else Suffix(path[..|path| - 1]) + "_" + Itoa(path[|path| - 1])
  }

  function Render(v: Visit): InnerTx {
    ToInnerTx(v.frame, Lower(v.frame.typ) + Suffix(v.path), |v.path|,
              if v.path == [] then 1 else v.path[|v.path| - 1] + 1, v.isError)
  }

  function RenderAll(vs: seq<Visit>): seq<InnerTx> {
    seq(|vs|, i requires 0 <= i < |vs| => Render(vs[i]))
  }

  /** Preorder; a frame of an unknown type is left out with all below it. */
  function Visits(f: Frame, path: Path, isError: bool): seq<Visit>
    decreases f, |f.calls| + 1
  {
    if !Known(f) then []
    else
      var err := isError || f.error != "";
      [Visit(path, f, err)] + VisitCalls(f, |f.calls|, path, err)
  }

  function VisitCalls(f: Frame, n: nat, path: Path, isError: bool): seq<Visit>
    requires n <= |f.calls|
    decreases f, n
  {
    if n == 0 then [] else VisitCalls(f, n - 1, path, isError) + Visits(f.calls[n - 1], path + [n], isError)
  }

  ghost predicate AllHaveTargets(f: Frame) {
    Known(f) ==> HasTarget(f) && forall i :: 0 <= i < |f.calls| ==> AllHaveTargets(f.calls[i])
  }

  lemma Regroup<T>(a: seq<T>, b: seq<T>, c: seq<T>)
    ensures (a + b) + c == a + (b + c)
  {
  }

  class Dfs {
    var innerTxs: seq<InnerTx>
    var indexMap: map<nat, nat>
    /** The frames behind `innerTxs`. */
    ghost var visits: seq<Visit>

    constructor ()
      ensures innerTxs == [] && visits == [] && indexMap == map[0 := 1]
    {
      innerTxs, visits, indexMap := [], [], map[0 := 1];
    }

    function IndexAt(i: nat): nat
      reads this`indexMap
    {
      if i in indexMap then indexMap[i] else 0
    }

    /** The indices on the way to the current frame. */
    ghost predicate On(path: Path)
      reads this`indexMap
    {
      forall i :: 0 <= i < |path| ==> IndexAt(i) == path[i] > 0
    }

    lemma Extends(path: Path, n: nat)
      requires n > 0
      ensures On(path + [n]) <==> On(path) && IndexAt(|path|) == n
    {
      assert forall i :: 0 <= i < |path| ==> (path + [n])[i] == path[i];
      assert (path + [n])[|path|] == n;
    }

    method Name(f: Frame, level: nat, ghost path: Path) returns (name: string)
      requires |path| == level && On(path)
      ensures name == Lower(f.typ) + Suffix(path)
    {
      name := Lower(f.typ);
      for i := 0 to level
        invariant name == Lower(f.typ) + Suffix(path[..i])
      {
        assert path[..i + 1][..i] == path[..i];
        if IndexAt(i) != 0 {
          name := name + "_" + Itoa(IndexAt(i));
        }
      }
      assert path[..level] == path;
    }

    /** Lines 143-156: the frame's own entry. */
    method Append(f: Frame, level: nat, index: nat, isError: bool, ghost path: Path)
      requires |path| == level && On(path)
      requires index == if path == [] then 1 else path[|path| - 1] + 1
      requires HasTarget(f) && innerTxs == RenderAll(visits)
      modifies this`innerTxs, this`visits
      ensures innerTxs == RenderAll(visits)
      ensures visits == old(visits) + [Visit(path, f, isError)]
    {
      var name := Name(f, level, path);
      innerTxs := innerTxs + [ToInnerTx(f, name, level, index, isError)];
      visits := visits + [Visit(path, f, isError)];
    }

    method Walk(f: Frame, level: nat, index: nat, isError: bool, ghost path: Path)
      requires |path| == level && On(path)
      requires index == if path == [] then 1 else path[|path| - 1] + 1
      requires AllHaveTargets(f) && innerTxs == RenderAll(visits)
      modifies this
      ensures innerTxs == RenderAll(visits)
      ensures visits == old(visits) + Visits(f, path, isError)
      ensures On(path)
      decreases f, 1
    {
      if !Known(f) {
        return;
      }
      var err := isError || f.error != "";
      Append(f, level, index, err, path);
      ghost var own := visits;
      var n := 0;
      while n < |f.calls|
        invariant 0 <= n <= |f.calls|
        invariant On(path) && innerTxs == RenderAll(visits)
        invariant visits == own + VisitCalls(f, n, path, err)
      {
        n := n + 1;
        WalkCall(f, n, level, err, path);
        Regroup(own, VisitCalls(f, n - 1, path, err), Visits(f.calls[n - 1], path + [n], err));
      }
      Regroup(old(visits), [Visit(path, f, err)], VisitCalls(f, n, path, err));
    }

    /** Lines 159-161: note the index of the call at this level, then descend. */
    method WalkCall(f: Frame, n: nat, level: nat, isError: bool, ghost path: Path)
      requires Known(f) && 0 < n <= |f.calls| && |path| == level && On(path)
      requires AllHaveTargets(f) && innerTxs == RenderAll(visits)
      modifies this
      ensures innerTxs == RenderAll(visits)
      ensures visits == old(visits) + Visits(f.calls[n - 1], path + [n], isError)
      ensures On(path)
      decreases f, 0
    {
      indexMap := indexMap[level := n];
      Extends(path, n);
      Walk(f.calls[n - 1], level + 1, n + 1, isError, path + [n]);
      Extends(path, n);
    }
  }

  method InternalTxTraceToInnerTxs(f: Frame) returns (innerTxs: seq<InnerTx>)
    requires AllHaveTargets(f)
    ensures innerTxs == RenderAll(Visits(f, [], f.error != ""))
  {
    var d := new Dfs();
    assert d.visits + Visits(f, [], f.error != "") == Visits(f, [], f.error != "");
    d.Walk(f, 0, 1, f.error != "", []);
    return d.innerTxs;
  }
}
