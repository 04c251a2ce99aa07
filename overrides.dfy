/**
 * The capacity-override form of the capacity page (app.py,
 * `section_capacites`): `INSERT … ON CONFLICT(user_id, cap_date) DO UPDATE`
 * into `capacity_overrides`, which keeps one override per user and day.
 */
module CapacityOverrides {
  import opened Wrappers
  import opened Text
  import opened Schema

  /** What submitting the form leads to. */
  datatype OverrideRequest = OverrideNotAllowed | CapacityRejected | Save(o: CapacityOverride)

  /** The override form is shown to Admins and Leads only. */
  predicate CanOverride(r: Role) {
    r == Admin || r == Lead
  }

  /** `reason.strip() if reason and reason.strip() else None`. */
  function CleanReason(reason: string): (r: Option<string>)
    ensures r.None? <==> Strip(reason) == ""
    ensures r.Some? ==> r.value == Strip(reason)
  {
    var t := Strip(reason);
    if t == "" then None else Some(t)
  }

  /** A stored reason is never blank and has no whitespace at either end. */
  lemma StoredReasonTrimmed(reason: string)
    requires CleanReason(reason).Some?
    ensures var t := CleanReason(reason).value;
      t != [] && !IsSpace(t[0]) && !IsSpace(t[|t| - 1])
  {
    StripSpec(reason);
  }

  /** The form's checks; a capacity outside 0..24 fails the table's CHECK and stores nothing. */
  function PrepareOverride(role: Role, uid: int, day: int, capacity: int, reason: string): (r: OverrideRequest)
    ensures r == OverrideNotAllowed <==> !CanOverride(role)
    ensures r == CapacityRejected <==> CanOverride(role) && !ValidCapacity(capacity)
    ensures r.Save? ==> r.o == CapacityOverride(uid, day, capacity, CleanReason(reason))
  {
    if !CanOverride(role) then OverrideNotAllowed
    else if !ValidCapacity(capacity) then CapacityRejected
    else Save(CapacityOverride(uid, day, capacity, CleanReason(reason)))
  }

  /** The primary key of an override. */
  function Key(o: CapacityOverride): (int, int) {
    (o.userId, o.day)
  }

  /** The upsert: the row with the same (user, day) takes the new capacity and reason in place, or a row is added. */
  function Upsert(os: seq<CapacityOverride>, o: CapacityOverride): (r: seq<CapacityOverride>)
    ensures |r| == |os| || |r| == |os| + 1
  {
    if os == [] then [o]
    else if Key(os[0]) == Key(o) then [o] + os[1..]
    else [os[0]] + Upsert(os[1..], o)
  }

  /** After the upsert the override for (user, day) is the new one. */
  lemma {:induction false} UpsertStoresOverride(os: seq<CapacityOverride>, o: CapacityOverride)
    ensures OverrideFor(Upsert(os, o), o.userId, o.day) == Some(o)
  {
    if os != [] && Key(os[0]) != Key(o) {
      UpsertStoresOverride(os[1..], o);
    }
  }

  /** Every other (user, day) keeps its override, or its lack of one. */
  lemma {:induction false} UpsertKeepsOthers(os: seq<CapacityOverride>, o: CapacityOverride, uid: int, day: int)
    requires (uid, day) != Key(o)
    ensures OverrideFor(Upsert(os, o), uid, day) == OverrideFor(os, uid, day)
  {
    if os != [] && Key(os[0]) != Key(o) {
      UpsertKeepsOthers(os[1..], o, uid, day);
    }
  }

  /** The upsert adds a row exactly when (user, day) had no override. */
  lemma {:induction false} UpsertGrowsOnlyForNewKey(os: seq<CapacityOverride>, o: CapacityOverride)
    ensures |Upsert(os, o)| == |os| + 1 <==> OverrideFor(os, o.userId, o.day).None?
  {
    if os != [] && Key(os[0]) != Key(o) {
      UpsertGrowsOnlyForNewKey(os[1..], o);
    }
  }

  /** The keys of the upserted table are those of the old one plus the new key. */
  lemma {:induction false} UpsertKeys(os: seq<CapacityOverride>, o: CapacityOverride)
    ensures forall k :: 0 <= k < |Upsert(os, o)| ==>
      Key(Upsert(os, o)[k]) == Key(o) || exists j :: 0 <= j < |os| && os[j] == Upsert(os, o)[k]
  {
    if os != [] && Key(os[0]) != Key(o) {
      UpsertKeys(os[1..], o);
      var r := Upsert(os, o);
      forall k | 0 < k < |r| && Key(r[k]) != Key(o) ensures exists j :: 0 <= j < |os| && os[j] == r[k] {
        assert r[k] == Upsert(os[1..], o)[k - 1];
        var j :| 0 <= j < |os[1..]| && os[1..][j] == r[k];
        assert os[j + 1] == r[k];
      }
    }
  }

  /**
   * The upsert keeps the table's constraints: one override per (user, day)
   * and capacities within 0..24. With them, exactly one override holds the
   * key afterwards, and it is the new one.
   */
  lemma {:induction false} UpsertKeepsConstraints(os: seq<CapacityOverride>, o: CapacityOverride)
    requires OverridesValid(os) && ValidCapacity(o.capacity)
    ensures OverridesValid(Upsert(os, o))
    ensures forall k :: 0 <= k < |Upsert(os, o)| && Key(Upsert(os, o)[k]) == Key(o) ==> Upsert(os, o)[k] == o
  {
    if os != [] {
      var r := Upsert(os, o);
      var tail := os[1..];
      assert OverridesValid(tail) by {
        forall i, j | 0 <= i < j < |tail| ensures Key(tail[i]) != Key(tail[j]) {
          assert tail[i] == os[i + 1] && tail[j] == os[j + 1];
        }
      }
      if Key(os[0]) == Key(o) {
        forall k | 0 < k < |r| ensures Key(r[k]) != Key(o) {
          assert r[k] == os[k];
        }
      } else {
        UpsertKeepsConstraints(tail, o);
        UpsertKeys(tail, o);
        var rest := Upsert(tail, o);
        assert r == [os[0]] + rest;
        forall k | 0 < k < |r| ensures Key(r[k]) != Key(os[0]) {
          assert r[k] == rest[k - 1];
          if Key(rest[k - 1]) != Key(o) {
            var j :| 0 <= j < |tail| && tail[j] == rest[k - 1];
            assert tail[j] == os[j + 1];
          }
        }
        forall k | 0 < k < |r| ensures ValidCapacity(r[k].capacity) {
          assert r[k] == rest[k - 1];
        }
      }
    }
  }

  /** Submitting the same override twice stores what submitting it once does. */
  lemma {:induction false} UpsertIdempotent(os: seq<CapacityOverride>, o: CapacityOverride)
    ensures Upsert(Upsert(os, o), o) == Upsert(os, o)
  {
    if os != [] && Key(os[0]) != Key(o) {
      UpsertIdempotent(os[1..], o);
    }
  }
}
