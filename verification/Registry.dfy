/** The registry of managed Kubernetes users, stored in the `managed_users` table. */
module Registry {
  import opened Common
  import opened GroupCodec
  import opened DiffWrite

  /** A user as the services see it: a dictionary whose missing keys are `None` here. */
  datatype Entry = Entry(
    name: string, namespace: Option<string>, kind: string, groups: Option<seq<string>>, createdAt: Option<int>,
    csrName: Option<string>, certExpiry: Option<int>, imported: Option<bool>)

  /** A row of the table, apart from its primary key. */
  datatype Row = Row(kind: string, groupsCsv: string, createdAt: int, csrName: Option<string>,
                     certExpiry: Option<int>, imported: bool)

  type Key = (string, string)

  datatype RegistryError = AlreadyExists | NotFound

  function KeyOf(e: Entry): Key {
    (e.name, e.namespace.GetOr("default"))
  }

  function ToRow(e: Entry, now: int): Row {
    Row(e.kind, Encode(e.groups.GetOr([])), e.createdAt.GetOr(now), e.csrName, e.certExpiry, e.imported.GetOr(false))
  }

  function ToEntry(key: Key, row: Row): Entry {
    Entry(key.0, Some(key.1), row.kind, Some(Decode(row.groupsCsv)), Some(row.createdAt),
          if row.csrName == Some("") then None else row.csrName, row.certExpiry,
          if row.imported then Some(true) else None)
  }

  /** The entry as it reads back once stored. */
  function Normalised(e: Entry, now: int): Entry {
    ToEntry(KeyOf(e), ToRow(e, now))
  }

  function NormalisedAll(users: map<Key, Entry>, now: int): map<Key, Entry> {
    map k | k in users :: Normalised(users[k], now)
  }

  /** Entries as they come out of the table. */
  ghost predicate AllLoaded(users: map<Key, Entry>, now: int) {
    forall k <- users :: KeyOf(users[k]) == k && users[k].namespace.Some? && Normalised(users[k], now) == users[k]
  }

  /** Every loaded entry is a fixed point of storing and loading. */
  lemma LoadedIsStable(key: Key, row: Row, now: int)
    ensures ToEntry(key, ToRow(ToEntry(key, row), now)) == ToEntry(key, row)
    ensures KeyOf(ToEntry(key, row)) == key
  {
    DecodeIsStable(row.groupsCsv);
  }

  /** Which entries read back as they were written. */
  lemma RoundTripIff(e: Entry, now: int)
    ensures Normalised(e, now) == e <==>
              && e.namespace.Some? && e.createdAt.Some? && e.csrName != Some("") && e.imported != Some(false)
              && e.groups.Some? && forall g <- e.groups.value :: Clean(g)
  {
    RoundTripIffClean(e.groups.GetOr([]));
  }

  /** Field by field, how a stored entry reads back. */
  lemma NormalisedByFields(e: Entry, now: int)
    ensures var n := Normalised(e, now);
            && n.name == e.name && n.kind == e.kind && n.certExpiry == e.certExpiry
            && n.namespace == (if e.namespace.None? then Some("default") else e.namespace)
            && n.createdAt == (if e.createdAt.None? then Some(now) else e.createdAt)
            && n.csrName == (if e.csrName == Some("") then None else e.csrName)
            && n.imported == (if e.imported == Some(false) then None else e.imported)
            && n.groups == Some(Decode(Encode(if e.groups.None? then [] else e.groups.value)))
            && (e.groups.Some? && (forall g <- e.groups.value :: Clean(g)) ==> n.groups == e.groups)
            && (e.groups.None? ==> n.groups == Some([]))
  {
    RoundTripIffClean(e.groups.GetOr([]));
    RoundTripIffClean([]);
  }

  predicate Names(list: seq<Entry>, k: Key) {
    exists i | 0 <= i < |list| :: KeyOf(list[i]) == k
  }

  /** `list` names each stored user once, as loaded. */
  ghost predicate Lists(list: seq<Entry>, stored: map<Key, Entry>) {
    && (forall i | 0 <= i < |list| :: KeyOf(list[i]) in stored && stored[KeyOf(list[i])] == list[i])
    && (forall k <- stored :: Names(list, k))
    && (forall i, j | 0 <= i < j < |list| :: KeyOf(list[i]) != KeyOf(list[j]))
  }

  /** Where the last-wins dictionary gets the entry of a key from. */
  lemma {:induction false} LastWinsAt(list: seq<Entry>, k: Key)
    ensures k in LastWins(list, KeyOf) <==> Names(list, k)
    ensures k in LastWins(list, KeyOf) ==>
              exists i :: 0 <= i < |list| && LastWins(list, KeyOf)[k] == list[i] && KeyOf(list[i]) == k
                          && forall j | i < j < |list| :: KeyOf(list[j]) != k
  {
    if list != [] {
      var n := |list| - 1;
      LastWinsAt(list[..n], k);
      if KeyOf(list[n]) == k {
        assert LastWins(list, KeyOf)[k] == list[n];
      } else if k in LastWins(list, KeyOf) {
        var i :| 0 <= i < n && LastWins(list[..n], KeyOf)[k] == list[..n][i] && KeyOf(list[..n][i]) == k
                 && forall j | i < j < n :: KeyOf(list[..n][j]) != k;
        assert list[i] == list[..n][i];
        forall j | i < j < |list| ensures KeyOf(list[j]) != k {
          if j < n { assert list[j] == list[..n][j]; }
        }
      } else {
        forall i | 0 <= i < |list| ensures KeyOf(list[i]) != k {
          if i < n { assert list[i] == list[..n][i]; }
        }
      }
    }
  }

  lemma ListedIsLastWins(list: seq<Entry>, stored: map<Key, Entry>)
    requires Lists(list, stored)
    ensures LastWins(list, KeyOf) == stored
  {
    forall k ensures Get(LastWins(list, KeyOf), k) == Get(stored, k) {
      LastWinsAt(list, k);
    }
    MapsEqual(LastWins(list, KeyOf), stored);
  }

  lemma LoadedTable(rows: map<Key, Row>, now: int)
    ensures AllLoaded(Loaded(rows, ToEntry), now)
  {
    forall k <- rows ensures KeyOf(ToEntry(k, rows[k])) == k
        && Normalised(ToEntry(k, rows[k]), now) == ToEntry(k, rows[k]) {
      LoadedIsStable(k, rows[k], now);
    }
  }

  class RegistryTable {
    var rows: map<Key, Row>

    constructor ()
      ensures rows == map[]
    {
      rows := map[];
    }

    /** The registry as its callers read it. */
    function Users(): map<Key, Entry>
      reads this
    {
      Loaded(rows, ToEntry)
    }

    /** In whatever order the SELECT returns the rows. */
    method LoadRegistry() returns (list: seq<Entry>)
      ensures Lists(list, Users())
    {
      hide Decode;
      list := [];
      var left := rows.Keys;
      while left != {}
        invariant left <= rows.Keys
        invariant forall i | 0 <= i < |list| ::
                    KeyOf(list[i]) in Users().Keys - left && Users()[KeyOf(list[i])] == list[i]
        invariant forall k <- rows :: k in left || Names(list, k)
        invariant forall i, j | 0 <= i < j < |list| :: KeyOf(list[i]) != KeyOf(list[j])
        decreases left
      {
        var k :| k in left;
        ghost var was := list;
        list := list + [ToEntry(k, rows[k])];
        left := left - {k};
        assert list[|list| - 1] == ToEntry(k, rows[k]);
        forall other <- rows | other !in left ensures Names(list, other) {
          if other != k {
            var i :| 0 <= i < |was| && KeyOf(was[i]) == other;
            assert KeyOf(list[i]) == other;
          }
        }
      }
    }

    /** Replaces the registry by `mutate` of the current list, writing only what differs. What an
        exception in `mutate` leaves behind is nothing. */
    method UpdateRegistry(mutate: seq<Entry> -> Result<seq<Entry>, RegistryError>, now: int)
      returns (current: seq<Entry>, result: Result<seq<Entry>, RegistryError>)
      modifies this
      ensures Lists(current, old(Users())) && AllLoaded(old(Users()), now) && result == mutate(current)
      ensures result.Err? ==> rows == old(rows)
      ensures result.Ok? ==>
                Users() == NormalisedAll(LastWins(result.value, KeyOf), now)
    {
      hide Decode, Encode, Lists, AllLoaded, LastWins;
      current := LoadRegistry();
      LoadedTable(rows, now);
      ListedIsLastWins(current, Users());
      var before := LastWins(current, KeyOf);
      result := mutate(current);
      if result.Ok? {
        var after := LastWins(result.value, KeyOf);
        forall k, r ensures ToEntry(k, ToRow(ToEntry(k, r), now)) == ToEntry(k, r) { LoadedIsStable(k, r, now); }
        SerialWriteReplaces(before, after, rows, ToEntry, e => ToRow(e, now));
        forall k <- after ensures KeyOf(after[k]) == k { LastWinsAt(result.value, k); }
        rows := ApplyDiff(before, after, rows, e => ToRow(e, now));
      }
    }
  }
}
