/** Fetching batch data by hash from the data availability committee (dataavailability/datacommittee/datacommittee.go:74-147). */
module DataCommittee {
  import opened Wrappers

  type Bytes = seq<bv8>
  type Hash = nat

  /** What a member answers when asked for the data of a hash; it may answer with the wrong data. */
  type Member = Hash -> Option<Bytes>
  type Keccak = Bytes -> Hash

  predicate Serves(keccak: Keccak, m: Member, h: Hash) {
    m(h).Some? && keccak(m(h).value) == h
  }

  ghost predicate Available(keccak: Keccak, members: seq<Member>, h: Hash) {
    exists i :: 0 <= i < |members| && Serves(keccak, members[i], h)
  }

  /** On the way round from `start`, `i` comes before `stop`. */
  predicate Passed(start: nat, i: nat, stop: nat) {
    if start <= stop then start <= i < stop else i < stop || start <= i
  }

  ghost predicate Unserved(keccak: Keccak, members: seq<Member>, h: Hash, start: nat, stop: nat) {
    forall i :: 0 <= i < |members| && Passed(start, i, stop) ==> !Serves(keccak, members[i], h)
  }

  function Left(n: int, start: int, at: int): int {
    if at >= start then n + start - at else start - at
  }

  lemma Around(at: nat, n: nat)
    requires at < n
    ensures (at + 1) % n == if at + 1 == n then 0 else at + 1
  {
    if at + 1 < n {
      assert (at + 1) / n == 0;
    }
  }

  lemma AskNext(keccak: Keccak, members: seq<Member>, h: Hash, start: nat, at: nat)
    requires start < |members| && at < |members|
    requires Unserved(keccak, members, h, start, at) && !Serves(keccak, members[at], h)
    ensures var next := (at + 1) % |members|;
      && 0 <= next < |members|
      && (next == start ==> !Available(keccak, members, h))
      && (next != start ==> Unserved(keccak, members, h, start, next) && Left(|members|, start, next) < Left(|members|, start, at))
  {
    Around(at, |members|);
  }

  class Committee {
    var members: seq<Member>
    /** -1 when there are no members. */
    var selected: int

    ghost predicate Valid()
      reads this
    {
      if members == [] then selected == -1 else 0 <= selected < |members|
    }

    /** A failed reading of the committee from L1 is `reloaded == None`. */
    method Init(reloaded: Option<seq<Member>>, pick: nat) returns (ok: bool)
      requires Valid()
      requires reloaded.Some? && reloaded.value != [] ==> pick < |reloaded.value|
      modifies this
      ensures Valid()
      ensures ok <==> reloaded.Some?
      ensures members == if ok then reloaded.value else old(members)
    {
      if reloaded.None? {
        return false;
      }
      members := reloaded.value;
      selected := if members == [] then -1 else pick;
      return true;
    }

    /** Members are asked one after the other, each at most once, until one has the data. */
    method GetBatchL2Data(keccak: Keccak, h: Hash, reloaded: Option<seq<Member>>, pick: nat) returns (data: Option<Bytes>)
      requires Valid()
      requires reloaded.Some? && reloaded.value != [] ==> pick < |reloaded.value|
      modifies this
      ensures Valid()
      ensures data.Some? <==> Available(keccak, old(members), h)
      ensures data.Some? ==> keccak(data.value) == h && members == old(members)
    {
      var initial := selected;
      var n := |members|;
      while initial != -1
        invariant Valid() && members == old(members) && n == |members|
        invariant initial == old(selected)
        invariant initial != -1 ==> Unserved(keccak, members, h, initial, selected)
        decreases Left(n, initial, selected)
      {
        var answer := members[selected](h);
        if answer.Some? && keccak(answer.value) == h {
          assert Serves(keccak, members[selected], h);
          return answer;
        }
        AskNext(keccak, members, h, initial, selected);
        selected := (selected + 1) % n;
        if selected == initial {
          break;
        }
      }
      var _ := Init(reloaded, pick);
      return None;
    }

    /** One hash at a time; all or nothing. */
    method GetSequence(keccak: Keccak, hashes: seq<Hash>, reloaded: Option<seq<Member>>, pick: nat)
      returns (data: Option<seq<Bytes>>)
      requires Valid()
      requires reloaded.Some? && reloaded.value != [] ==> pick < |reloaded.value|
      modifies this
      ensures Valid()
      ensures data.Some? <==> forall i :: 0 <= i < |hashes| ==> Available(keccak, old(members), hashes[i])
      ensures data.Some? ==> Preimages(keccak, data.value, hashes)
    {
      var found: seq<Bytes> := [];
      for i := 0 to |hashes|
        invariant Valid() && members == old(members)
        invariant Preimages(keccak, found, hashes[..i])
        invariant forall j :: 0 <= j < i ==> Available(keccak, members, hashes[j])
      {
        var d := GetBatchL2Data(keccak, hashes[i], reloaded, pick);
        if d.None? {
          return None;
        }
        found := found + [d.value];
      }
      return Some(found);
    }
  }

  predicate Preimages(keccak: Keccak, data: seq<Bytes>, hashes: seq<Hash>) {
    |data| == |hashes| && forall i :: 0 <= i < |data| ==> keccak(data[i]) == hashes[i]
  }
}
