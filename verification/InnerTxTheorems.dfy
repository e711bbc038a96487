/** Which frames of a trace become inner transactions, in which order, and what their names and error flags mean. */
module InnerTxTheorems {
  import opened Wrappers
  import opened Decimal
  import opened InnerTxs
  import opened CallTypes

  // Which frames

  /** The frame at a path through frames of known types, and whether it or a frame on the way has an error. */
  function Reach(f: Frame, p: Path, isError: bool): Option<(Frame, bool)>
    decreases p
  {
    if !Known(f) then None
    else
      var err := isError || f.error != "";
      if p == [] then Some((f, err))
      else if 1 <= p[0] <= |f.calls| then Reach(f.calls[p[0] - 1], p[1..], err)
      else None
  }

  ghost predicate Under(path: Path, v: Visit) {
    |path| <= |v.path| && v.path[..|path|] == path
  }

  lemma {:induction false} InCalls(f: Frame, n: nat, path: Path, isError: bool, v: Visit)
    requires n <= |f.calls|
    ensures v in VisitCalls(f, n, path, isError)
      <==> exists k :: 1 <= k <= n && v in Visits(f.calls[k - 1], path + [k], isError)
    decreases n
  {
    if n > 0 {
      InCalls(f, n - 1, path, isError, v);
    }
  }

  lemma {:induction false} VisitedIsUnder(f: Frame, path: Path, isError: bool, v: Visit)
    requires v in Visits(f, path, isError)
    ensures Under(path, v)
    decreases f
  {
    var err := isError || f.error != "";
    if v != Visit(path, f, err) {
      InCalls(f, |f.calls|, path, err, v);
      var k :| 1 <= k <= |f.calls| && v in Visits(f.calls[k - 1], path + [k], err);
      VisitedIsUnder(f.calls[k - 1], path + [k], err, v);
      assert (path + [k])[..|path|] == path;
    }
  }

  lemma IndexOfCall(g: Frame, path: Path, k: nat, isError: bool, v: Visit)
    requires v in Visits(g, path + [k], isError)
    ensures Under(path, v) && |v.path| > |path| && v.path[|path|] == k
  {
    VisitedIsUnder(g, path + [k], isError, v);
    assert (path + [k])[..|path|] == path && (path + [k])[|path|] == k;
  }

  /** Among the calls of a frame, the one with the index in the path. */
  lemma InCallOfPath(f: Frame, path: Path, isError: bool, v: Visit)
    ensures v in VisitCalls(f, |f.calls|, path, isError)
      <==> && Under(path, v) && |v.path| > |path| && 1 <= v.path[|path|] <= |f.calls|
           && v in Visits(f.calls[v.path[|path|] - 1], path + [v.path[|path|]], isError)
  {
    InCalls(f, |f.calls|, path, isError, v);
    if v in VisitCalls(f, |f.calls|, path, isError) {
      var k :| 1 <= k <= |f.calls| && v in Visits(f.calls[k - 1], path + [k], isError);
      IndexOfCall(f.calls[k - 1], path, k, isError, v);
    }
  }

  lemma InVisits(f: Frame, path: Path, isError: bool, v: Visit)
    requires Known(f)
    ensures var err := isError || f.error != "";
      v in Visits(f, path, isError) <==> v == Visit(path, f, err) || v in VisitCalls(f, |f.calls|, path, err)
  {
  }

  lemma ReachBelow(f: Frame, p: Path, isError: bool)
    requires Known(f) && p != []
    ensures Reach(f, p, isError)
      == if 1 <= p[0] <= |f.calls| then Reach(f.calls[p[0] - 1], p[1..], isError || f.error != "") else None
  {
  }

  /** Below the frame itself, it is the calls that decide. */
  lemma {:induction false} VisitedBelow(f: Frame, path: Path, isError: bool, v: Visit)
    requires Known(f) && Under(path, v) && |v.path| > |path|
    ensures var n, err := |path|, isError || f.error != "";
      v in Visits(f, path, isError)
      <==> 1 <= v.path[n] <= |f.calls| && v in Visits(f.calls[v.path[n] - 1], path + [v.path[n]], err)
  {
    InVisits(f, path, isError, v);
    InCallOfPath(f, path, isError || f.error != "", v);
  }

  lemma {:induction false} VisitedHere(f: Frame, path: Path, isError: bool, v: Visit)
    requires !Known(f) || !Under(path, v) || v.path == path
    ensures v in Visits(f, path, isError) <==> Known(f) && v == Visit(path, f, isError || f.error != "")
  {
    if Known(f) {
      InVisits(f, path, isError, v);
      InCallOfPath(f, path, isError || f.error != "", v);
    }
  }

  lemma {:induction false} VisitedIff(f: Frame, path: Path, isError: bool, v: Visit)
    ensures v in Visits(f, path, isError)
      <==> Under(path, v) && Reach(f, v.path[|path|..], isError) == Some((v.frame, v.isError))
    decreases f
  {
    var n := |path|;
    if Under(path, v) {
      Descends(path, v);
    }
    if Known(f) && Under(path, v) && |v.path| > n {
      VisitedBelow(f, path, isError, v);
      ReachBelow(f, v.path[n..], isError);
      if 1 <= v.path[n] <= |f.calls| {
        VisitedIff(f.calls[v.path[n] - 1], path + [v.path[n]], isError || f.error != "", v);
      }
    } else {
      VisitedHere(f, path, isError, v);
    }
  }

  lemma Descends(path: Path, v: Visit)
    requires Under(path, v)
    ensures |v.path| == |path| ==> v.path == path
    ensures |v.path| > |path| ==>
      && v.path[|path|..][0] == v.path[|path|] && v.path[|path|..][1..] == v.path[|path| + 1..]
      && Under(path + [v.path[|path|]], v)
  {
    assert v.path == v.path[..|path|] + v.path[|path|..];
    if |v.path| > |path| {
      assert v.path[..|path| + 1] == path + [v.path[|path|]];
    }
  }

  /** The frame at a path, whatever is on the way. */
  function FrameAt(f: Frame, p: Path): Option<Frame>
    decreases p
  {
    if p == [] then Some(f)
    else if 1 <= p[0] <= |f.calls| then FrameAt(f.calls[p[0] - 1], p[1..])
    else None
  }

  predicate KnownAt(f: Frame, p: Path) {
    FrameAt(f, p).Some? && IsCallType(FrameAt(f, p).value.typ)
  }

  predicate ErrorAt(f: Frame, p: Path) {
    FrameAt(f, p).Some? && FrameAt(f, p).value.error != ""
  }

  /** The frame at the path and all its ancestors have one of the seven types. */
  predicate AllKnown(f: Frame, p: Path) {
    forall k :: 0 <= k <= |p| ==> KnownAt(f, p[..k])
  }

  /** The frame at the path or one of its ancestors has an error. */
  predicate AnyError(f: Frame, p: Path) {
    exists k :: 0 <= k <= |p| && ErrorAt(f, p[..k])
  }

  lemma PrefixBelow(f: Frame, p: Path, k: nat)
    requires p != [] && 1 <= p[0] <= |f.calls| && 1 <= k <= |p|
    ensures FrameAt(f, p[..k]) == FrameAt(f.calls[p[0] - 1], p[1..][..k - 1])
  {
    assert p[..k][1..] == p[1..][..k - 1];
  }

  /** What holds along a path holds at its start and along the rest. */
  lemma AlongPath(f: Frame, p: Path)
    requires p != [] && 1 <= p[0] <= |f.calls|
    ensures AllKnown(f, p) <==> Known(f) && AllKnown(f.calls[p[0] - 1], p[1..])
    ensures AnyError(f, p) <==> f.error != "" || AnyError(f.calls[p[0] - 1], p[1..])
  {
    var g, q := f.calls[p[0] - 1], p[1..];
    KnownIff(f);
    assert p[..0] == [];
    forall k | 1 <= k <= |p|
      ensures FrameAt(f, p[..k]) == FrameAt(g, q[..k - 1])
    {
      PrefixBelow(f, p, k);
    }
    if AllKnown(f, p) {
      assert KnownAt(f, p[..0]);
      forall k | 0 <= k <= |q| ensures KnownAt(g, q[..k]) {
        assert KnownAt(f, p[..k + 1]);
      }
    }
    if AnyError(g, q) {
      var k :| 0 <= k <= |q| && ErrorAt(g, q[..k]);
      assert ErrorAt(f, p[..k + 1]);
    }
    if f.error != "" {
      assert ErrorAt(f, p[..0]);
    }
  }

  lemma {:induction false} ReachIsFrameAt(f: Frame, p: Path, isError: bool)
    ensures Reach(f, p, isError)
      == if FrameAt(f, p).Some? && AllKnown(f, p) then Some((FrameAt(f, p).value, isError || AnyError(f, p))) else None
    decreases p
  {
    KnownIff(f);
    if p == [] {
      assert p[..0] == p;
      assert KnownAt(f, p) <==> AllKnown(f, p);
      assert ErrorAt(f, p) <==> AnyError(f, p);
    } else if 1 <= p[0] <= |f.calls| {
      AlongPath(f, p);
      ReachIsFrameAt(f.calls[p[0] - 1], p[1..], isError || f.error != "");
    }
  }

  /**
   The visits of a whole trace are exactly the frames that, with all their ancestors, have one of the seven types; one is
   flagged exactly when it or an ancestor has an error.
   */
  lemma TraceIsVisitedIff(f: Frame, v: Visit)
    ensures v in Visits(f, [], f.error != "")
      <==> FrameAt(f, v.path) == Some(v.frame) && AllKnown(f, v.path) && (v.isError <==> AnyError(f, v.path))
  {
    VisitedIff(f, [], f.error != "", v);
    assert v.path[..0] == [] && v.path[0..] == v.path;
    ReachIsFrameAt(f, v.path, f.error != "");
    assert f.error != "" ==> ErrorAt(f, v.path[..0]);
  }

  /** An entry's fields: where its frame is, what it is, and whether it or a frame on the way failed. */
  lemma EntryDescribesFrame(f: Frame, v: Visit)
    requires v in Visits(f, [], f.error != "")
    ensures var tx := Render(v);
      && tx.depth == |v.path|
      && tx.internalIndex == (if v.path == [] then 0 else v.path[|v.path| - 1])
      && tx.callType in ["call", "create", "create2", "callcode", "delegatecall", "staticcall", "selfdestruct"]
      && Spelled(v.frame.typ, tx.callType) && tx.name == Join([tx.callType] + Itoas(v.path), '_')
      && (v.frame.error != "" ==> tx.isError) && tx.error == v.frame.error && tx.data == v.frame.data
      && tx.to == (if v.frame.to.Some? then v.frame.to.value else "")
      && (tx.callType == "callcode" ==> tx.codeAddress == tx.to)
      && (tx.callType != "callcode" ==> tx.codeAddress == "")
  {
    VisitIsKnown(f, v);
    NameIsJoin(Lower(v.frame.typ), v.path);
    TraceIsVisitedIff(f, v);
    assert v.path[..|v.path|] == v.path;
    assert KnownAt(f, v.path[..|v.path|]) && (v.frame.error != "" ==> ErrorAt(f, v.path[..|v.path|]));
  }

  lemma {:induction false} FrameAtCall(f: Frame, p: Path, i: nat)
    requires FrameAt(f, p).Some? && i < |FrameAt(f, p).value.calls|
    ensures FrameAt(f, p + [i + 1]) == Some(FrameAt(f, p).value.calls[i])
    decreases p
  {
    if p != [] {
      assert (p + [i + 1])[1..] == p[1..] + [i + 1];
      FrameAtCall(f.calls[p[0] - 1], p[1..], i);
    }
  }

  lemma KnownAlongCall(f: Frame, p: Path, i: nat)
    requires FrameAt(f, p).Some? && i < |FrameAt(f, p).value.calls|
    ensures AllKnown(f, p + [i + 1]) <==> AllKnown(f, p) && IsCallType(FrameAt(f, p).value.calls[i].typ)
  {
    var q := p + [i + 1];
    FrameAtCall(f, p, i);
    assert q[..|q|] == q;
    assert forall k :: 0 <= k <= |p| ==> q[..k] == p[..k];
    assert KnownAt(f, q[..|q|]) <==> IsCallType(FrameAt(f, p).value.calls[i].typ);
  }

  lemma ErrorAlongCall(f: Frame, p: Path, i: nat)
    requires FrameAt(f, p).Some? && i < |FrameAt(f, p).value.calls|
    ensures AnyError(f, p + [i + 1]) <==> AnyError(f, p) || FrameAt(f, p).value.calls[i].error != ""
  {
    var q := p + [i + 1];
    FrameAtCall(f, p, i);
    assert q[..|q|] == q;
    assert ErrorAt(f, q[..|q|]) <==> FrameAt(f, p).value.calls[i].error != "";
    forall k | 0 <= k <= |p| ensures ErrorAt(f, q[..k]) <==> ErrorAt(f, p[..k]) {
      assert q[..k] == p[..k];
    }
  }

  /** With a frame that is listed, each of its calls is listed exactly when it has one of the seven types. */
  lemma CallsAreListedIff(f: Frame, v: Visit, i: nat)
    requires v in Visits(f, [], f.error != "") && i < |v.frame.calls|
    ensures
      var call := v.frame.calls[i];
      Visit(v.path + [i + 1], call, v.isError || call.error != "") in Visits(f, [], f.error != "") <==> IsCallType(call.typ)
  {
    var call := v.frame.calls[i];
    TraceIsVisitedIff(f, v);
    TraceIsVisitedIff(f, Visit(v.path + [i + 1], call, v.isError || call.error != ""));
    FrameAtCall(f, v.path, i);
    KnownAlongCall(f, v.path, i);
    ErrorAlongCall(f, v.path, i);
  }

  // In which order

  /** A frame comes before its calls, and these come in the order they were made. */
  predicate Before(p: Path, q: Path) {
    q != [] && (p == [] || p[0] < q[0] || (p[0] == q[0] && Before(p[1..], q[1..])))
  }

  ghost predicate Ordered(vs: seq<Visit>) {
    forall i, j :: 0 <= i < j < |vs| ==> Before(vs[i].path, vs[j].path)
  }

  lemma {:induction false} BeforeAfterPrefix(c: Path, p: Path, q: Path)
    ensures Before(c + p, c + q) <==> Before(p, q)
  {
    if c == [] {
      assert c + p == p && c + q == q;
    } else {
      assert (c + p)[1..] == c[1..] + p && (c + q)[1..] == c[1..] + q;
      BeforeAfterPrefix(c[1..], p, q);
    }
  }

  lemma BranchesInOrder(path: Path, j: nat, k: nat, u: Visit, v: Visit)
    requires Under(path + [j], u) && Under(path + [k], v) && j < k
    ensures Before(u.path, v.path)
  {
    var n := |path|;
    assert u.path == path + u.path[n..] by { assert (path + [j])[..n] == path; }
    assert v.path == path + v.path[n..] by { assert (path + [k])[..n] == path; }
    assert u.path[n] == (path + [j])[n] && v.path[n] == (path + [k])[n];
    BeforeAfterPrefix(path, u.path[n..], v.path[n..]);
  }

  lemma ParentFirst(path: Path, k: nat, v: Visit)
    requires Under(path + [k], v)
    ensures Before(path, v.path)
  {
    var n := |path|;
    assert v.path == path + v.path[n..] by { assert (path + [k])[..n] == path; }
    assert path == path + [];
    BeforeAfterPrefix(path, [], v.path[n..]);
  }

  lemma {:induction false} CallsOrdered(f: Frame, n: nat, path: Path, isError: bool)
    requires n <= |f.calls|
    ensures Ordered(VisitCalls(f, n, path, isError))
    decreases f, n
  {
    if n > 0 {
      var a, b := VisitCalls(f, n - 1, path, isError), Visits(f.calls[n - 1], path + [n], isError);
      CallsOrdered(f, n - 1, path, isError);
      VisitsOrdered(f.calls[n - 1], path + [n], isError);
      forall u, v | u in a && v in b
        ensures Before(u.path, v.path)
      {
        InCalls(f, n - 1, path, isError, u);
        var j :| 1 <= j <= n - 1 && u in Visits(f.calls[j - 1], path + [j], isError);
        VisitedIff(f.calls[j - 1], path + [j], isError, u);
        VisitedIff(f.calls[n - 1], path + [n], isError, v);
        BranchesInOrder(path, j, n, u, v);
      }
      ConcatOrdered(a, b);
    }
  }

  lemma ConcatOrdered(a: seq<Visit>, b: seq<Visit>)
    requires Ordered(a) && Ordered(b)
    requires forall u, v :: u in a && v in b ==> Before(u.path, v.path)
    ensures Ordered(a + b)
  {
  }

  lemma {:induction false} VisitsOrdered(f: Frame, path: Path, isError: bool)
    ensures Ordered(Visits(f, path, isError))
    decreases f, |f.calls| + 1
  {
    if Known(f) {
      var err := isError || f.error != "";
      CallsOrdered(f, |f.calls|, path, err);
      forall v | v in VisitCalls(f, |f.calls|, path, err)
        ensures Before(path, v.path)
      {
        InCalls(f, |f.calls|, path, err, v);
        var k :| 1 <= k <= |f.calls| && v in Visits(f.calls[k - 1], path + [k], err);
        VisitedIff(f.calls[k - 1], path + [k], err, v);
        ParentFirst(path, k, v);
      }
      ConcatOrdered([Visit(path, f, err)], VisitCalls(f, |f.calls|, path, err));
    }
  }

  // Names

  function Itoas(path: Path): seq<string> {
    if path == [] then [] else Itoas(path[..|path| - 1]) + [Itoa(path[|path| - 1])]
  }

  lemma {:induction false} JoinLast(parts: seq<string>, s: string, sep: char)
    requires |parts| >= 1
    ensures Join(parts + [s], sep) == Join(parts, sep) + [sep] + s
  {
    if |parts| > 1 {
      assert (parts + [s])[1..] == parts[1..] + [s];
      JoinLast(parts[1..], s, sep);
    } else {
      assert (parts + [s])[1..] == [s];
    }
  }

  lemma {:induction false} NameIsJoin(t: string, path: Path)
    ensures t + Suffix(path) == Join([t] + Itoas(path), '_')
  {
    if path == [] {
      assert [t] + Itoas(path) == [t];
    } else {
      var n := |path| - 1;
      NameIsJoin(t, path[..n]);
      assert [t] + Itoas(path) == ([t] + Itoas(path[..n])) + [Itoa(path[n])];
      JoinLast([t] + Itoas(path[..n]), Itoa(path[n]), '_');
    }
  }

  lemma {:induction false} NoUnderscores(path: Path)
    ensures |Itoas(path)| == |path|
    ensures forall i :: 0 <= i < |path| ==> Itoas(path)[i] == Itoa(path[i]) && '_' !in Itoas(path)[i]
  {
    if path != [] {
      NoUnderscores(path[..|path| - 1]);
      ValueOfItoa(path[|path| - 1]);
      assert forall c <- Itoa(path[|path| - 1]) :: IsDigit(c);
    }
  }

  /** A name can be read back: the type and the path of its frame. */
  lemma NameIdentifiesPath(t: string, p: Path, u: string, q: Path)
    requires '_' !in t && '_' !in u && t + Suffix(p) == u + Suffix(q)
    ensures t == u && p == q
  {
    NameIsJoin(t, p);
    NameIsJoin(u, q);
    NoUnderscores(p);
    NoUnderscores(q);
    SplitJoin([t] + Itoas(p), '_');
    SplitJoin([u] + Itoas(q), '_');
    assert ([t] + Itoas(p))[0] == ([u] + Itoas(q))[0];
    assert ([t] + Itoas(p))[1..] == Itoas(p) && ([u] + Itoas(q))[1..] == Itoas(q);
    forall i | 0 <= i < |p|
      ensures p[i] == q[i]
    {
      ItoaInjective(p[i], q[i]);
    }
  }

  lemma {:induction false} BeforeIsStrict(p: Path)
    ensures !Before(p, p)
  {
    if p != [] {
      BeforeIsStrict(p[1..]);
    }
  }

  /** No two inner transactions of a trace have the same name. */
  lemma NamesAreUnique(f: Frame, i: nat, j: nat)
    requires var vs := Visits(f, [], f.error != ""); i < j < |vs|
    ensures var txs := RenderAll(Visits(f, [], f.error != "")); txs[i].name != txs[j].name
  {
    var vs := Visits(f, [], f.error != "");
    VisitsOrdered(f, [], f.error != "");
    VisitIsKnown(f, vs[i]);
    VisitIsKnown(f, vs[j]);
    if Render(vs[i]).name == Render(vs[j]).name {
      NameIdentifiesPath(Lower(vs[i].frame.typ), vs[i].path, Lower(vs[j].frame.typ), vs[j].path);
      BeforeIsStrict(vs[i].path);
    }
  }

  lemma VisitIsKnown(f: Frame, v: Visit)
    requires v in Visits(f, [], f.error != "")
    ensures Known(v.frame) && Spelled(v.frame.typ, Lower(v.frame.typ)) && '_' !in Lower(v.frame.typ)
  {
    TraceIsVisitedIff(f, v);
    assert v.path[..|v.path|] == v.path;
    assert KnownAt(f, v.path[..|v.path|]);
    KnownIff(v.frame);
    LowerOfKnown(v.frame);
  }
}
