/** The abstract switch table: which descriptor each switched descriptor
    forwards to. The Zig implementation stores exactly this map. */
module SwitchTable {
  import opened SendQueue

  type Table = map<Fd, Fd>

  function Put(t: Table, a: Fd, b: Fd): Table {
    t[a := b][b := a]
  }

  function Nuke(t: Table, fd: Fd): Table {
    if fd in t then t - {fd} - {t[fd]} else t
  }

  /** Every entry has its mirror. */
  ghost predicate Symmetric(t: Table) {
    forall a :: a in t ==> t[a] in t && t[t[a]] == a
  }

  /** Neither descriptor is paired with a third one. */
  predicate PairFree(t: Table, a: Fd, b: Fd) {
    && (a in t ==> t[a] == a || t[a] == b)
    && (b in t ==> t[b] == a || t[b] == b)
  }

  /** Adding a pair keeps the table symmetric exactly when no third descriptor
      loses its partner. */
  lemma PutSymmetric(t: Table, a: Fd, b: Fd)
    requires Symmetric(t)
    ensures Symmetric(Put(t, a, b)) <==> PairFree(t, a, b)
  {
    var t' := Put(t, a, b);
    if !PairFree(t, a, b) {
      var orphan := if a in t && t[a] != a && t[a] != b then t[a] else t[b];
      assert orphan in t' && t'[orphan] in {a, b} && t'[t'[orphan]] != orphan;
    }
  }

  lemma NukeIsRemoval(t: Table, fd: Fd)
    requires fd in t
    ensures Nuke(t, fd) == t - {fd, t[fd]}
  {
  }

  /** Removing a pair removes both ends and nothing else. */
  lemma NukePair(t: Table, fd: Fd)
    requires Symmetric(t) && fd in t
    ensures Symmetric(Nuke(t, fd))
    ensures Nuke(t, fd).Keys == t.Keys - {fd, t[fd]}
    ensures forall g :: g in Nuke(t, fd) ==> Nuke(t, fd)[g] == t[g]
  {
  }
}
