/** The key and capability tables beside the passports. Key ids are unique within a passport. */
module Credentials {
  import opened Utf16

  datatype PublicKey = PublicKey(kid: Str, alg: Str, publicKey: Str)

  datatype Capability = Capability(name: Str, version: Str, verified: bool)

  datatype KeyRow = KeyRow(passportId: Str, key: PublicKey, createdAt: Str)

  datatype CapabilityRow = CapabilityRow(passportId: Str, capability: Capability, createdAt: Str)

  datatype Tables = Tables(keys: seq<KeyRow>, capabilities: seq<CapabilityRow>)

  /** UNIQUE(passport_id, kid) */
  predicate HasKid(rows: seq<KeyRow>, passportId: Str, kid: Str)
  {
    exists i | 0 <= i < |rows| :: rows[i].passportId == passportId && rows[i].key.kid == kid
  }

  function KeyRows(passportId: Str, keys: seq<PublicKey>, now: Str): (r: seq<KeyRow>)
    ensures |r| == |keys| && forall i | 0 <= i < |r| :: r[i] == KeyRow(passportId, keys[i], now)
  {
    seq(|keys|, i requires 0 <= i < |keys| => KeyRow(passportId, keys[i], now))
  }

  function CapabilityRows(passportId: Str, capabilities: seq<Capability>, now: Str): (r: seq<CapabilityRow>)
    ensures |r| == |capabilities| && forall i | 0 <= i < |r| :: r[i] == CapabilityRow(passportId, capabilities[i], now)
  {
    seq(|capabilities|, i requires 0 <= i < |capabilities| => CapabilityRow(passportId, capabilities[i], now))
  }

  /** How many of the keys can be inserted one after the other before one repeats a key id. */
  function Insertable(rows: seq<KeyRow>, passportId: Str, keys: seq<PublicKey>): (n: nat)
    ensures n <= |keys|
  {
    if keys == [] then 0
    else
      var front, last := keys[..|keys| - 1], keys[|keys| - 1];
      var n := Insertable(rows, passportId, front);
      if n < |front| || HasKid(rows, passportId, last.kid) || RepeatsKid(front, last.kid) then n else |keys|
  }

  predicate RepeatsKid(keys: seq<PublicKey>, kid: Str)
  {
    exists i | 0 <= i < |keys| :: keys[i].kid == kid
  }

  predicate DistinctKids(keys: seq<PublicKey>)
  {
    forall i, j | 0 <= i < j < |keys| :: keys[i].kid != keys[j].kid
  }

  /** The keys and capabilities of a new passport are inserted in order; a repeated key id ends it, and the
      keys before it stay. The flag tells whether all were inserted. */
  function Enrolled(t: Tables, passportId: Str, keys: seq<PublicKey>, capabilities: seq<Capability>, now: Str)
    : (Tables, bool)
  {
    var n := Insertable(t.keys, passportId, keys);
    var written := t.keys + KeyRows(passportId, keys[..n], now);
    if n < |keys| then (t.(keys := written), false)
    else (Tables(written, t.capabilities + CapabilityRows(passportId, capabilities, now)), true)
  }

  /** What toPassport reads back, in the order of insertion. */
  function KeysOf(rows: seq<KeyRow>, passportId: Str): seq<PublicKey>
  {
    if rows == [] then []
    else
      var last := rows[|rows| - 1];
      KeysOf(rows[..|rows| - 1], passportId) + if last.passportId == passportId then [last.key] else []
  }

  function CapabilitiesOf(rows: seq<CapabilityRow>, passportId: Str): seq<Capability>
  {
    if rows == [] then []
    else
      var last := rows[|rows| - 1];
      CapabilitiesOf(rows[..|rows| - 1], passportId) + if last.passportId == passportId then [last.capability] else []
  }

  /** No row belongs to the passport. */
  predicate Unused(t: Tables, passportId: Str)
  {
    && (forall i | 0 <= i < |t.keys| :: t.keys[i].passportId != passportId)
    && forall i | 0 <= i < |t.capabilities| :: t.capabilities[i].passportId != passportId
  }

  ghost predicate KidsUnique(rows: seq<KeyRow>)
  {
    forall i, j | 0 <= i < j < |rows| :: rows[i].passportId != rows[j].passportId || rows[i].key.kid != rows[j].key.kid
  }

  // ---------------------------------------------------------------- inserting

  /** All keys go in exactly when none repeats a key id that the passport has or an earlier one brought. */
  lemma {:induction false} InsertableMeans(rows: seq<KeyRow>, passportId: Str, keys: seq<PublicKey>)
    ensures var n := Insertable(rows, passportId, keys);
            && DistinctKids(keys[..n])
            && (forall i | 0 <= i < n :: !HasKid(rows, passportId, keys[i].kid))
            && (n < |keys| ==> HasKid(rows, passportId, keys[n].kid) || RepeatsKid(keys[..n], keys[n].kid))
  {
    if keys != [] {
      var front := keys[..|keys| - 1];
      InsertableMeans(rows, passportId, front);
      var n := Insertable(rows, passportId, front);
      assert keys[..n] == front[..n];
    }
  }

  /** For a passport without keys that means that the key ids are distinct. */
  lemma InsertableFresh(t: Tables, passportId: Str, keys: seq<PublicKey>)
    requires Unused(t, passportId)
    ensures Insertable(t.keys, passportId, keys) == |keys| <==> DistinctKids(keys)
    ensures var n := Insertable(t.keys, passportId, keys);
            DistinctKids(keys[..n]) && (n < |keys| ==> RepeatsKid(keys[..n], keys[n].kid))
  {
    InsertableMeans(t.keys, passportId, keys);
    assert keys[..|keys|] == keys;
  }

  /** The insert loop goes on just as long as the next key does not repeat a key id. */
  lemma {:induction false} InsertableReaches(rows: seq<KeyRow>, passportId: Str, keys: seq<PublicKey>, now: Str, i: nat)
    requires i < |keys| && i <= Insertable(rows, passportId, keys)
    ensures i < Insertable(rows, passportId, keys) <==>
            !HasKid(rows + KeyRows(passportId, keys[..i], now), passportId, keys[i].kid)
  {
    InsertableMeans(rows, passportId, keys);
    HasKidAppended(rows, passportId, keys[..i], now, keys[i].kid);
    assert forall j | 0 <= j < i :: keys[..i][j] == keys[j];
    assert i < Insertable(rows, passportId, keys) ==> DistinctKids(keys[..i + 1]);
  }

  lemma HasKidAppended(rows: seq<KeyRow>, passportId: Str, keys: seq<PublicKey>, now: Str, kid: Str)
    ensures HasKid(rows + KeyRows(passportId, keys, now), passportId, kid) <==>
            HasKid(rows, passportId, kid) || RepeatsKid(keys, kid)
  {
    var more := KeyRows(passportId, keys, now);
    var all := rows + more;
    if i :| 0 <= i < |rows| && rows[i].passportId == passportId && rows[i].key.kid == kid {
      assert all[i] == rows[i];
    }
    if i :| 0 <= i < |keys| && keys[i].kid == kid {
      assert all[|rows| + i] == more[i];
    }
    if i :| 0 <= i < |all| && all[i].passportId == passportId && all[i].key.kid == kid {
      assert i < |rows| ==> rows[i] == all[i];
      assert i >= |rows| ==> more[i - |rows|] == all[i];
    }
  }

  // ---------------------------------------------------------------- reading back

  lemma {:induction false} KeysOfNone(rows: seq<KeyRow>, passportId: Str)
    requires forall i | 0 <= i < |rows| :: rows[i].passportId != passportId
    ensures KeysOf(rows, passportId) == []
  {
    if rows != [] {
      KeysOfNone(rows[..|rows| - 1], passportId);
    }
  }

  lemma {:induction false} CapabilitiesOfNone(rows: seq<CapabilityRow>, passportId: Str)
    requires forall i | 0 <= i < |rows| :: rows[i].passportId != passportId
    ensures CapabilitiesOf(rows, passportId) == []
  {
    if rows != [] {
      CapabilitiesOfNone(rows[..|rows| - 1], passportId);
    }
  }

  lemma {:induction false} KeysReadBack(rows: seq<KeyRow>, passportId: Str, keys: seq<PublicKey>, now: Str, other: Str)
    ensures KeysOf(rows + KeyRows(passportId, keys, now), other)
         == KeysOf(rows, other) + if passportId == other then keys else []
  {
    if keys == [] {
      assert rows + KeyRows(passportId, keys, now) == rows;
    } else {
      var front := keys[..|keys| - 1];
      var all := rows + KeyRows(passportId, keys, now);
      assert all[..|all| - 1] == rows + KeyRows(passportId, front, now);
      KeysReadBack(rows, passportId, front, now, other);
      assert keys == front + [keys[|keys| - 1]];
    }
  }

  lemma {:induction false} CapabilitiesReadBack(rows: seq<CapabilityRow>, passportId: Str,
                                                capabilities: seq<Capability>,
                                                now: Str, other: Str)
    ensures CapabilitiesOf(rows + CapabilityRows(passportId, capabilities, now), other)
         == CapabilitiesOf(rows, other) + if passportId == other then capabilities else []
  {
    if capabilities == [] {
      assert rows + CapabilityRows(passportId, capabilities, now) == rows;
    } else {
      var front := capabilities[..|capabilities| - 1];
      var all := rows + CapabilityRows(passportId, capabilities, now);
      assert all[..|all| - 1] == rows + CapabilityRows(passportId, front, now);
      CapabilitiesReadBack(rows, passportId, front, now, other);
      assert capabilities == front + [capabilities[|capabilities| - 1]];
    }
  }

  /** Enrolling an unused passport id: all keys and capabilities are read back exactly when the key ids are
      distinct; otherwise the keys before the first repeated id are, and no capability. Other passports keep
      what they have. */
  lemma EnrolledReadsBack(t: Tables, passportId: Str, keys: seq<PublicKey>, capabilities: seq<Capability>, now: Str,
                          other: Str)
    requires Unused(t, passportId)
    ensures var (t', complete) := Enrolled(t, passportId, keys, capabilities, now);
            var n := Insertable(t.keys, passportId, keys);
            && (complete <==> DistinctKids(keys))
            && KeysOf(t'.keys, passportId) == keys[..n]
            && CapabilitiesOf(t'.capabilities, passportId) == (if complete then capabilities else [])
            && (other != passportId ==>
                  && KeysOf(t'.keys, other) == KeysOf(t.keys, other)
                  && CapabilitiesOf(t'.capabilities, other) == CapabilitiesOf(t.capabilities, other))
  {
    var n := Insertable(t.keys, passportId, keys);
    InsertableFresh(t, passportId, keys);
    KeysOfNone(t.keys, passportId);
    CapabilitiesOfNone(t.capabilities, passportId);
    KeysReadBack(t.keys, passportId, keys[..n], now, passportId);
    KeysReadBack(t.keys, passportId, keys[..n], now, other);
    CapabilitiesReadBack(t.capabilities, passportId, capabilities, now, passportId);
    CapabilitiesReadBack(t.capabilities, passportId, capabilities, now, other);
  }

  /** The same for a caller: what is read back is the longest part of the request without a repeated key id. */
  lemma EnrolledMeans(t: Tables, passportId: Str, keys: seq<PublicKey>, capabilities: seq<Capability>, now: Str)
    requires Unused(t, passportId)
    ensures var (t', complete) := Enrolled(t, passportId, keys, capabilities, now);
            var read := KeysOf(t'.keys, passportId);
            && (complete <==> DistinctKids(keys))
            && read <= keys && DistinctKids(read) && (read != keys ==> RepeatsKid(read, keys[|read|].kid))
            && CapabilitiesOf(t'.capabilities, passportId) == (if DistinctKids(keys) then capabilities else [])
  {
    InsertableFresh(t, passportId, keys);
    EnrolledReadsBack(t, passportId, keys, capabilities, now, passportId);
    assert keys[..|keys|] == keys;
  }

  lemma EnrolledUnique(t: Tables, passportId: Str, keys: seq<PublicKey>, capabilities: seq<Capability>, now: Str)
    requires KidsUnique(t.keys)
    ensures KidsUnique(Enrolled(t, passportId, keys, capabilities, now).0.keys)
  {
    InsertableMeans(t.keys, passportId, keys);
    var rows := Enrolled(t, passportId, keys, capabilities, now).0.keys;
    forall i, j | 0 <= i < j < |rows|
      ensures rows[i].passportId != rows[j].passportId || rows[i].key.kid != rows[j].key.kid
    {
      if i < |t.keys| <= j && rows[i].passportId == passportId {
        assert !HasKid(t.keys, passportId, keys[j - |t.keys|].kid);
        assert t.keys[i] == rows[i];
      }
    }
  }

  /** Under the uniqueness of the table, the keys read back have distinct ids. */
  lemma {:induction false} KeysOfDistinct(rows: seq<KeyRow>, passportId: Str)
    requires KidsUnique(rows)
    ensures DistinctKids(KeysOf(rows, passportId))
    ensures forall k | k in KeysOf(rows, passportId) :: HasKid(rows, passportId, k.kid)
  {
    if rows != [] {
      var front, last := rows[..|rows| - 1], rows[|rows| - 1];
      KeysOfDistinct(front, passportId);
      var keys := KeysOf(front, passportId);
      forall k | k in keys
        ensures HasKid(rows, passportId, k.kid) && (last.passportId == passportId ==> k.kid != last.key.kid)
      {
        var i :| 0 <= i < |front| && front[i].passportId == passportId && front[i].key.kid == k.kid;
        assert rows[i] == front[i];
      }
      forall i | 0 <= i < |keys| ensures keys[i] in keys {
      }
      if last.passportId == passportId {
        assert HasKid(rows, passportId, last.key.kid);
      }
    }
  }
}
