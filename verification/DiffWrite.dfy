/** Replacing a table by writing only the differences between what was loaded and what is wanted.

    Used for the managed-user registry and for the cluster registry. `before` is what was loaded,
    `after` what the caller made of it, and the rows are those found when the writes are made:
    other writers may have come in between. */
module DiffWrite {
  import opened Common

  /** The last entry under a key wins, as in a dictionary comprehension. */
  function LastWins<K(==), E>(entries: seq<E>, key: E -> K): map<K, E>
    decreases |entries|
  {
    if entries == [] then map[]
    else LastWins(entries[..|entries| - 1], key)[key(entries[|entries| - 1]) := entries[|entries| - 1]]
  }

  /** The rows after the write, key by key. */
  function Written<K, E(==), R>(before: map<K, E>, after: map<K, E>, rows: map<K, R>, store: E -> R): map<K, R> {
    map k | k in after.Keys + (rows.Keys - before.Keys) ::
      if k !in after then rows[k]
      else if k in rows && k in before && before[k] == after[k] then rows[k]
      else store(after[k])
  }

  /** The rows while the second loop is at work: the keys in `done` have been written. */
  function PartlyWritten<K, E(==), R>(before: map<K, E>, after: map<K, E>, kept: map<K, R>, store: E -> R, done: set<K>)
      : map<K, R>
    requires done <= after.Keys
  {
    map k | k in kept.Keys + done ::
      if k !in done || (k in kept && k in before && before[k] == after[k]) then kept[k] else store(after[k])
  }

  lemma OneMoreWritten<K, E, R>(before: map<K, E>, after: map<K, E>, kept: map<K, R>, store: E -> R, done: set<K>, k: K)
    requires done <= after.Keys && k in after && k !in done
    ensures var now := PartlyWritten(before, after, kept, store, done);
            PartlyWritten(before, after, kept, store, done + {k})
            == if k in now && k in before && before[k] == after[k] then now else now[k := store(after[k])]
  {
  }

  lemma AllWritten<K, E, R>(before: map<K, E>, after: map<K, E>, rows: map<K, R>, store: E -> R)
    ensures PartlyWritten(before, after, rows - (before.Keys - after.Keys), store, after.Keys)
            == Written(before, after, rows, store)
  {
  }

  /** The source's two loops: delete the keys that went, then insert or update the rest. */
  method ApplyDiff<K(==), E(==), R>(before: map<K, E>, after: map<K, E>, rows: map<K, R>, store: E -> R)
    returns (result: map<K, R>)
    ensures result == Written(before, after, rows, store)
  {
    hide PartlyWritten, Written;
    result := rows;
    var gone := before.Keys - after.Keys;
    while gone != {}
      invariant gone <= before.Keys - after.Keys
      invariant result == rows - (before.Keys - after.Keys - gone)
      decreases gone
    {
      var k :| k in gone;
      result := result - {k};
      gone := gone - {k};
    }
    ghost var kept := rows - (before.Keys - after.Keys);
    var left := after.Keys;
    NoneWritten(before, after, kept, store);
    assert after.Keys - left == {};
    while left != {}
      invariant left <= after.Keys
      invariant result == PartlyWritten(before, after, kept, store, after.Keys - left)
      decreases left
    {
      var k :| k in left;
      OneMoreWritten(before, after, kept, store, after.Keys - left, k);
      assert after.Keys - left + {k} == after.Keys - (left - {k});
      left := left - {k};
      if k !in result {
        result := result[k := store(after[k])];
      } else if !(k in before && before[k] == after[k]) {
        result := result[k := store(after[k])];
      }
    }
    assert after.Keys - left == after.Keys;
    AllWritten(before, after, rows, store);
  }

  lemma NoneWritten<K, E, R>(before: map<K, E>, after: map<K, E>, kept: map<K, R>, store: E -> R)
    ensures PartlyWritten(before, after, kept, store, {}) == kept
  {
  }

  function Loaded<K, E, R>(rows: map<K, R>, load: (K, R) -> E): map<K, E> {
    map k | k in rows :: load(k, rows[k])
  }

  /** Storing what was loaded and loading it again changes nothing. */
  ghost predicate Stable<K(!new), E, R(!new)>(load: (K, R) -> E, store: E -> R) {
    forall k, r :: load(k, store(load(k, r))) == load(k, r)
  }

  /** Without interference the table reads back as the wanted entries, each normalised by one
      store and load: skipping the unchanged entries is sound because loaded ones are fixed points. */
  lemma SerialWriteReplaces<K(!new), E, R(!new)>(before: map<K, E>, after: map<K, E>, rows: map<K, R>,
                                                 load: (K, R) -> E, store: E -> R)
    requires Stable(load, store) && before == Loaded(rows, load)
    ensures Loaded(Written(before, after, rows, store), load) == map k | k in after :: load(k, store(after[k]))
  {
    var result := Written(before, after, rows, store);
    assert result.Keys == after.Keys;
    forall k <- after ensures load(k, result[k]) == load(k, store(after[k])) {
      if k in rows && before[k] == after[k] {
        assert load(k, store(load(k, rows[k]))) == load(k, rows[k]);
      }
    }
  }

  // ── Other writers between load and write ──────────────────────────────────────────────

  function Get<K, V>(m: map<K, V>, k: K): Option<V> {
    if k in m then Some(m[k]) else None
  }

  /** This update means to change key `k`. */
  predicate Changes<K, E(==)>(before: map<K, E>, after: map<K, E>, k: K) {
    Get(before, k) != Get(after, k)
  }

  /** What a key-by-key merge of this update into the present rows would hold at `k`. */
  function Merged<K, E(==), R>(before: map<K, E>, after: map<K, E>, rows: map<K, R>, store: E -> R, k: K): Option<R> {
    if !Changes(before, after, k) then Get(rows, k)
    else if k in after then Some(store(after[k])) else None
  }

  /** The write merges at every key, except that a row somebody else deleted and this update
      leaves alone comes back. */
  lemma WriteAtKey<K, E, R>(before: map<K, E>, after: map<K, E>, rows: map<K, R>, store: E -> R, k: K)
    ensures Get(Written(before, after, rows, store), k)
            == if k in after && !Changes(before, after, k) && k !in rows then Some(store(after[k]))
               else Merged(before, after, rows, store, k)
  {
  }

  /** The write is exactly the merge if and only if no row that this update read and leaves alone
      has been deleted meanwhile: other writers' inserts and updates of such keys always survive. */
  lemma MergesIffNothingResurrected<K(!new), E, R>(before: map<K, E>, after: map<K, E>, rows: map<K, R>, store: E -> R)
    ensures (forall k :: Get(Written(before, after, rows, store), k) == Merged(before, after, rows, store, k))
            <==> (forall k <- after :: Changes(before, after, k) || k in rows)
  {
    forall k ensures Get(Written(before, after, rows, store), k)
                     == if k in after && !Changes(before, after, k) && k !in rows then Some(store(after[k]))
                        else Merged(before, after, rows, store, k) {
      WriteAtKey(before, after, rows, store, k);
    }
    if !(forall k <- after :: Changes(before, after, k) || k in rows) {
      var k :| k in after && !Changes(before, after, k) && k !in rows;
      assert Get(Written(before, after, rows, store), k) != Merged(before, after, rows, store, k);
    }
  }

  /** The rows after two updates that loaded the same table, `one` written first. */
  function Both<K, R(==)>(base: map<K, R>, one: map<K, R>, two: map<K, R>): map<K, R> {
    Written(base, two, Written(base, one, base, r => r), r => r)
  }

  lemma BothAtKey<K, R>(base: map<K, R>, one: map<K, R>, two: map<K, R>, k: K)
    requires !(Changes(base, one, k) && Changes(base, two, k))
    ensures Get(Both(base, one, two), k)
            == if Changes(base, two, k) then Get(two, k) else if k in base then Some(Get(one, k).GetOr(base[k]))
                else Get(one, k)
  {
    WriteAtKey(base, one, base, r => r, k);
    WriteAtKey(base, two, Written(base, one, base, r => r), r => r, k);
  }

  /** Two updates that change no key in common end in the same rows whichever writes last,
      exactly when neither deletes a row; then each sees all its own changes kept. */
  lemma DisjointUpdatesCommute<K(!new), R>(base: map<K, R>, one: map<K, R>, two: map<K, R>)
    requires forall k :: !(Changes(base, one, k) && Changes(base, two, k))
    ensures Both(base, one, two) == Both(base, two, one) <==> base.Keys <= one.Keys && base.Keys <= two.Keys
    ensures base.Keys <= one.Keys && base.Keys <= two.Keys ==>
              forall k :: Get(Both(base, one, two), k) == if Changes(base, two, k) then Get(two, k) else Get(one, k)
  {
    var a, b := Both(base, one, two), Both(base, two, one);
    if base.Keys <= one.Keys && base.Keys <= two.Keys {
      forall k ensures Get(a, k) == Get(b, k) {
        BothAtKey(base, one, two, k);
        BothAtKey(base, two, one, k);
      }
      MapsEqual(a, b);
    } else {
      var k :| k in base && !(k in one && k in two);
      BothAtKey(base, one, two, k);
      BothAtKey(base, two, one, k);
      assert Changes(base, one, k) || Changes(base, two, k);
      assert Get(a, k) != Get(b, k);
    }
  }

  lemma MapsEqual<K(!new), V>(a: map<K, V>, b: map<K, V>)
    requires forall k :: Get(a, k) == Get(b, k)
    ensures a == b
  {
    forall k ensures k in a <==> k in b { assert Get(a, k) == Get(b, k); }
    forall k <- a ensures a[k] == b[k] { assert Get(a, k) == Get(b, k); }
  }

  /** A deletion is undone by an update that loaded the row before it and leaves it alone. */
  lemma DeletedRowComesBack<K, R>(base: map<K, R>, deleted: K, two: map<K, R>)
    requires deleted in base && Get(two, deleted) == Get(base, deleted)
    ensures deleted !in Written(base, base - {deleted}, base, r => r)
    ensures Get(Both(base, base - {deleted}, two), deleted) == Get(base, deleted)
  {
    BothAtKey(base, base - {deleted}, two, deleted);
  }
}
