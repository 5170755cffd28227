/**
 * The bounded stores of backend/oauth_state.py. A store is a table keyed by an opaque string whose
 * every access first deletes the expired rows; `rows` is what the open session sees, `committed`
 * what every other session sees and what a rollback returns to.
 */
module OauthState {
  import opened Prelude

  /** Seconds on the server's clock. */
  type Time = int

  /** What a row is stored under: the key itself, or its SHA-256 digest, taken to be injective. */
  datatype StoredKey = Plain(value: string) | Digest(value: string)

  datatype Row<V> = Row(values: V, expiresAt: Time)

  type Rows<V> = map<StoredKey, Row<V>>

  function Purged<V>(rows: Rows<V>, now: Time): Rows<V> {
    map k | k in rows && rows[k].expiresAt > now :: rows[k]
  }

  function Find<V>(rows: Rows<V>, key: StoredKey): Option<Row<V>> {
    if key in rows then Some(rows[key]) else None
  }

  /** The row a pop answers with; it must still be live when the delete reads the clock. */
  function Poppable<V>(rows: Rows<V>, key: StoredKey, now: Time): Option<Row<V>> {
    if key in rows && rows[key].expiresAt > now then Some(rows[key]) else None
  }

  function AfterPop<V>(rows: Rows<V>, key: StoredKey, now: Time): Rows<V> {
    if Poppable(rows, key, now).Some? then rows - {key} else rows
  }

  function Extended<V>(rows: Rows<V>, key: StoredKey, deadline: Time): Rows<V> {
    if key in rows && rows[key].expiresAt < deadline then rows[key := rows[key].(expiresAt := deadline)] else rows
  }

  // --- The cap ----------------------------------------------------------------

  function Others<V>(rows: Rows<V>, key: StoredKey): nat {
    |rows.Keys - {key}|
  }

  ghost predicate Submap<V>(part: Rows<V>, whole: Rows<V>) {
    forall k :: k in part ==> k in whole && part[k] == whole[k]
  }

  /** `part` is `rows` less some rows other than `key`, none of them expiring after one that stays. */
  ghost predicate NearestGone<V>(rows: Rows<V>, key: StoredKey, part: Rows<V>) {
    && Submap(part, rows)
    && (key in rows ==> key in part)
    && (forall gone, kept :: gone in rows && gone !in part && kept in part && kept != key
          ==> rows[gone].expiresAt <= rows[kept].expiresAt)
  }

  lemma NoneGone<V>(rows: Rows<V>, key: StoredKey)
    ensures NearestGone(rows, key, rows)
  {}

  lemma OneMoreGone<V>(rows: Rows<V>, key: StoredKey, part: Rows<V>, nearest: StoredKey)
    requires NearestGone(rows, key, part) && nearest in part && nearest != key
    requires forall k :: k in part && k != key ==> part[nearest].expiresAt <= part[k].expiresAt
    ensures NearestGone(rows, key, part - {nearest})
    ensures Others(part - {nearest}, key) == Others(part, key) - 1
  {
    assert (part - {nearest}).Keys - {key} == (part.Keys - {key}) - {nearest};
    assert nearest in part.Keys - {key};
  }

  /** Room for one more row under `key`: nothing goes below the cap, exactly enough goes at it. */
  ghost predicate RoomMade<V>(rows: Rows<V>, key: StoredKey, max: nat, part: Rows<V>) {
    && NearestGone(rows, key, part)
    && if Others(rows, key) < max then part == rows else Others(part, key) + 1 == max
  }

  /** What a successful store leaves, from the rows the session saw before it. */
  ghost predicate Stored<V(!new)>(before: Rows<V>, key: StoredKey, row: Row<V>, max: nat, now: Time, after: Rows<V>) {
    exists part :: RoomMade(Purged(before, now), key, max, part) && after == part[key := row]
  }

  lemma StoredKeepsCap<V(!new)>(before: Rows<V>, key: StoredKey, row: Row<V>, max: nat, now: Time, after: Rows<V>)
    requires Stored(before, key, row, max, now, after) && max >= 1
    ensures |after| <= max
  {
    hide NearestGone, Purged;
    var part :| RoomMade(Purged(before, now), key, max, part) && after == part[key := row];
    assert Others(part, key) + 1 <= max;
    hide RoomMade, Stored;
  }

  /** Whatever was evicted, a store adds its row and changes no other. */
  lemma StoredOnlyAdds<V(!new)>(before: Rows<V>, key: StoredKey, row: Row<V>, max: nat, now: Time, after: Rows<V>)
    requires Stored(before, key, row, max, now, after)
    ensures key in after && after[key] == row
    ensures forall k :: k in after && k != key ==> k in before && after[k] == before[k]
  {
    var part :| RoomMade(Purged(before, now), key, max, part) && after == part[key := row];
    assert Submap(part, Purged(before, now));
  }

  /** The unexpired rows under other keys. */
  ghost function LiveOthers<V>(rows: Rows<V>, key: StoredKey, now: Time): set<StoredKey> {
    set k | k in rows && k != key && rows[k].expiresAt > now
  }

  /**
   * A store that evicts makes room for the new row and no more: below the cap no unexpired row goes,
   * at it exactly as many as leave it full, none of them expiring after one that stays.
   */
  lemma StoredEvictsLeast<V(!new)>(before: Rows<V>, key: StoredKey, row: Row<V>, max: nat, now: Time, after: Rows<V>)
    requires Stored(before, key, row, max, now, after) && max >= 1
    ensures key in after && after[key] == row
    ensures forall k :: k in after && k != key ==> k in LiveOthers(before, key, now) && after[k] == before[k]
    ensures |LiveOthers(before, key, now)| < max ==> after.Keys == LiveOthers(before, key, now) + {key}
    ensures |LiveOthers(before, key, now)| >= max ==> |after| == max
    ensures forall gone, kept :: gone in LiveOthers(before, key, now) && gone !in after && kept in after && kept != key
              ==> before[gone].expiresAt <= before[kept].expiresAt
  {
    var live := Purged(before, now);
    var part :| RoomMade(live, key, max, part) && after == part[key := row];
    OthersAmongLive(before, key, now);
    EvictsLeast(live, key, row, max, part);
    hide Purged, RoomMade, Others;
    forall gone, kept | gone in LiveOthers(before, key, now) && gone !in after && kept in after && kept != key
      ensures before[gone].expiresAt <= before[kept].expiresAt
    {
      assert gone in live.Keys - {key} && kept in live.Keys - {key};
    }
  }

  lemma OthersAmongLive<V>(rows: Rows<V>, key: StoredKey, now: Time)
    ensures LiveOthers(rows, key, now) == Purged(rows, now).Keys - {key}
    ensures forall k :: k in Purged(rows, now) ==> k in rows && Purged(rows, now)[k] == rows[k]
  {}

  lemma EvictsLeast<V>(live: Rows<V>, key: StoredKey, row: Row<V>, max: nat, part: Rows<V>)
    requires RoomMade(live, key, max, part) && max >= 1
    ensures var after := part[key := row];
            && (forall k :: k in after && k != key ==> k in live.Keys - {key} && after[k] == live[k])
            && (Others(live, key) < max ==> after.Keys == (live.Keys - {key}) + {key})
            && (Others(live, key) >= max ==> |after| == max)
            && (forall gone, kept :: gone in live.Keys - {key} && gone !in after && kept in after && kept != key
                  ==> live[gone].expiresAt <= live[kept].expiresAt)
  {
    var after := part[key := row];
    CountWithKey(part, key, row);
    assert Others(live, key) < max ==> after.Keys == (live.Keys - {key}) + {key};
    hide Others;
  }

  lemma CountWithKey<V>(part: Rows<V>, key: StoredKey, row: Row<V>)
    ensures |part[key := row]| == Others(part, key) + 1
  {
    var after := part[key := row];
    assert after.Keys == (part.Keys - {key}) + {key};
    assert |after.Keys| == |after|;
  }

  /** A store that refuses rather than evicts: the rows with one more, or no change at all. */
  function StoreOrRefuse<V>(rows: Rows<V>, key: StoredKey, row: Row<V>, max: nat, now: Time): Option<Rows<V>> {
    if Others(Purged(rows, now), key) < max then Some(Purged(rows, now)[key := row]) else None
  }

  // --- The refresh tokens -----------------------------------------------------

  datatype Refresh = Refresh(
    subject: Option<string>, email: Option<string>, client: string, scope: string, family: nat,
    consumedAt: Option<Time>)

  predicate Redeemable(rows: Rows<Refresh>, key: StoredKey, now: Time) {
    key in rows && rows[key].values.consumedAt.None? && rows[key].expiresAt > now
  }

  function MarkedConsumed(row: Row<Refresh>, now: Time): Row<Refresh> {
    row.(values := row.values.(consumedAt := Some(now), subject := None, email := None))
  }

  /** The rows once the token is marked consumed, and the row as it stood before. */
  function Consumed(rows: Rows<Refresh>, key: StoredKey, now: Time): (Rows<Refresh>, Option<Row<Refresh>>) {
    if Redeemable(rows, key, now) then (rows[key := MarkedConsumed(rows[key], now)], Some(rows[key]))
    else (rows, None)
  }

  function WithoutFamily(rows: Rows<Refresh>, family: nat): Rows<Refresh> {
    map k | k in rows && rows[k].values.family != family :: rows[k]
  }

  // --- The class --------------------------------------------------------------

  class Store<V(==,!new)> {
    const maxEntries: nat
    const evicts: bool
    const hashesKeys: bool
    var rows: Rows<V>
    var committed: Rows<V>

    constructor (maxEntries: nat, evicts: bool, hashesKeys: bool)
      ensures this.maxEntries == maxEntries && this.evicts == evicts && this.hashesKeys == hashesKeys
      ensures rows == committed == map[]
    {
      this.maxEntries, this.evicts, this.hashesKeys := maxEntries, evicts, hashesKeys;
      rows, committed := map[], map[];
    }

    function KeyOf(key: string): StoredKey {
      if hashesKeys then Digest(key) else Plain(key)
    }

    method Commit()
      modifies this
      ensures rows == old(rows) && committed == rows
    {
      committed := rows;
    }

    method Rollback()
      modifies this
      ensures rows == committed == old(committed)
    {
      rows := committed;
    }

    method PurgeExpired(now: Time)
      modifies this
      ensures rows == Purged(old(rows), now) && committed == old(committed)
    {
      rows := map k | k in rows && rows[k].expiresAt > now :: rows[k];
    }

    /** Deletes the `count` rows nearest their expiry, never the one about to be replaced. */
    method EvictNearest(key: StoredKey, count: nat)
      requires count <= Others(rows, key)
      modifies this
      ensures NearestGone(old(rows), key, rows) && committed == old(committed)
      ensures Others(rows, key) == Others(old(rows), key) - count
    {
      hide NearestGone, Others;
      var left := count;
      assert NearestGone(rows, key, rows) by { NoneGone(rows, key); }
      while left > 0
        invariant 0 <= left <= Others(rows, key)
        invariant NearestGone(old(rows), key, rows) && committed == old(committed)
        invariant Others(rows, key) == Others(old(rows), key) - (count - left)
      {
        var nearest := NearestExpiry(key);
        OneMoreGone(old(rows), key, rows, nearest);
        rows := rows - {nearest};
        left := left - 1;
      }
    }

    method NearestExpiry(key: StoredKey) returns (nearest: StoredKey)
      requires Others(rows, key) > 0
      ensures nearest in rows && nearest != key
      ensures forall k :: k in rows && k != key ==> rows[nearest].expiresAt <= rows[k].expiresAt
    {
      var unseen := rows.Keys - {key};
      nearest :| nearest in unseen;
      while unseen != {}
        invariant unseen <= rows.Keys - {key}
        invariant nearest in rows && nearest != key
        invariant forall k :: k in rows && k != key && k !in unseen ==> rows[nearest].expiresAt <= rows[k].expiresAt
      {
        var k :| k in unseen;
        if rows[k].expiresAt < rows[nearest].expiresAt {
          nearest := k;
        }
        unseen := unseen - {k};
      }
    }

    /** Inserts the row under the key, or refuses and rolls back everything the session had not committed. */
    method CleanupAndStore(key: string, row: Row<V>, now: Time) returns (stored: bool)
      requires maxEntries >= 1
      modifies this
      ensures committed == rows
      ensures stored <==> evicts || Others(Purged(old(rows), now), KeyOf(key)) < maxEntries
      ensures stored ==> Stored(old(rows), KeyOf(key), row, maxEntries, now, rows)
      ensures !stored ==> rows == old(committed)
      ensures stored && !evicts ==> StoreOrRefuse(old(rows), KeyOf(key), row, maxEntries, now) == Some(rows)
    {
      var k := KeyOf(key);
      PurgeExpired(now);
      ghost var purged := rows;
      var others := |rows.Keys - {k}|;
      if others >= maxEntries {
        if !evicts {
          Rollback();
          return false;
        }
        EvictNearest(k, others - maxEntries + 1);
      }
      ghost var part := rows;
      assert RoomMade(purged, k, maxEntries, part);
      if k in rows {
        rows := rows - {k};
      }
      rows := rows[k := row];
      assert rows == part[k := row];
      Commit();
      return true;
    }

    method CleanupAndGet(key: string, now: Time) returns (found: Option<Row<V>>)
      modifies this
      ensures rows == committed == Purged(old(rows), now)
      ensures found == Find(rows, KeyOf(key))
    {
      PurgeExpired(now);
      Commit();
      var k := KeyOf(key);
      return if k in rows then Some(rows[k]) else None;
    }

    method CleanupAndPop(key: string, purgedAt: Time, now: Time) returns (found: Option<Row<V>>)
      modifies this
      ensures found == Poppable(Purged(old(rows), purgedAt), KeyOf(key), now)
      ensures rows == committed == AfterPop(Purged(old(rows), purgedAt), KeyOf(key), now)
      ensures found.Some? <==> KeyOf(key) in old(rows) && old(rows)[KeyOf(key)].expiresAt > purgedAt
                               && old(rows)[KeyOf(key)].expiresAt > now
    {
      PurgeExpired(purgedAt);
      var k := KeyOf(key);
      found := None;
      if k in rows && rows[k].expiresAt > now {
        found := Some(rows[k]);
        rows := rows - {k};
      }
      Commit();
    }

    method ExtendExpiry(key: string, deadline: Time)
      modifies this
      ensures rows == committed == Extended(old(rows), KeyOf(key), deadline)
    {
      var k := KeyOf(key);
      if k in rows {
        var later := if rows[k].expiresAt < deadline then deadline else rows[k].expiresAt;
        rows := rows[k := rows[k].(expiresAt := later)];
      }
      Commit();
    }
  }

  /** The one store function that only flushes: the consume waits to commit with its replacement. */
  method ConsumeRefreshToken(tokens: Store<Refresh>, token: string, purgedAt: Time, now: Time)
    returns (consumed: Option<Row<Refresh>>)
    modifies tokens
    ensures (tokens.rows, consumed) == Consumed(Purged(old(tokens.rows), purgedAt), tokens.KeyOf(token), now)
    ensures tokens.committed == old(tokens.committed)
    ensures var k, before := tokens.KeyOf(token), old(tokens.rows);
            consumed.Some? <==> k in before && before[k].values.consumedAt.None? && before[k].expiresAt > purgedAt
                                && before[k].expiresAt > now
  {
    tokens.PurgeExpired(purgedAt);
    var k := tokens.KeyOf(token);
    consumed := None;
    if k in tokens.rows && tokens.rows[k].values.consumedAt.None? && tokens.rows[k].expiresAt > now {
      consumed := Some(tokens.rows[k]);
      tokens.rows := tokens.rows[k := MarkedConsumed(tokens.rows[k], now)];
    }
  }

  method RevokeRefreshTokenFamily(tokens: Store<Refresh>, family: nat) returns (revoked: nat)
    modifies tokens
    ensures tokens.rows == tokens.committed == WithoutFamily(old(tokens.rows), family)
    ensures revoked == |old(tokens.rows)| - |tokens.rows|
  {
    var gone := set k | k in tokens.rows && tokens.rows[k].values.family == family;
    assert |tokens.rows| == |tokens.rows.Keys|;
    ghost var kept := tokens.rows.Keys - gone;
    assert tokens.rows.Keys == kept + gone;
    tokens.rows := map k | k in tokens.rows && tokens.rows[k].values.family != family :: tokens.rows[k];
    assert tokens.rows.Keys == kept && |tokens.rows| == |kept|;
    tokens.Commit();
    return |gone|;
  }
}
