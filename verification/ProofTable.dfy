/** The table of recursive proofs and its statements (state/pgstatestorage/proof.go, state/pgstatestorage/batch.go:779). */
module ProofTable {

  /** Batches `lo` to `hi`, both included; the key of a row. */
  datatype Range = Range(lo: nat, hi: nat)

  /** A row is mapped to whether it is locked (generating_since is set). */
  type Table = map<Range, bool>

  predicate Covers(r: Range, b: nat) {
    r.lo <= b <= r.hi
  }

  predicate Disjoint(r: Range, q: Range) {
    r.hi < q.lo || q.hi < r.lo
  }

  predicate Inside(r: Range, lo: nat, hi: nat) {
    lo <= r.lo && r.hi <= hi
  }

  ghost predicate Covered(t: Table, b: nat) {
    exists r :: r in t && Covers(r, b)
  }

  /** DELETE ... WHERE batch_num >= lo AND batch_num_final <= hi */
  function DeleteInside(t: Table, lo: nat, hi: nat): Table {
    map r | r in t && !Inside(r, lo, hi) :: t[r]
  }

  /** DELETE ... WHERE batch_num_final <= n */
  function CleanupUpTo(t: Table, n: nat): Table {
    map r | r in t && n < r.hi :: t[r]
  }

  /** UPDATE ... SET generating_since WHERE the key matches; no row, no effect. */
  function SetLock(t: Table, r: Range, locked: bool): Table {
    if r in t then t[r := locked] else t
  }

  /** Stored ranges are not empty and no batch is in two of them. */
  ghost predicate WellFormed(t: Table) {
    && (forall r <- t :: r.lo <= r.hi)
    && (forall r, q :: r in t && q in t && r != q ==> Disjoint(r, q))
  }

  /** The transaction that replaces two adjacent proofs by their aggregation, locked. */
  function Merge(t: Table, p1: Range, p2: Range): Table {
    DeleteInside(t, p1.lo, p2.hi)[Range(p1.lo, p2.hi) := true]
  }
}
