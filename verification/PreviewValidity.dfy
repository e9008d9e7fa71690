/** The preview of a downloaded round stays valid while work is captured and receipts arrive. */
module PreviewValidity {
  import opened Wrappers
  import opened Ordering
  import opened LocalCommands
  import opened LocalWork
  import opened LocalEvidence

  // ----- The overlays of one round -----

  function RoundSet(pending: map<Key, Effect>, round: RoundKey): set<Key> {
    set k | k in pending && k.scope == round.scope && pending[k].roundId == round.roundId
  }

  function RoundKeys(db: Db, round: RoundKey): (keys: seq<Key>)
    ensures forall k :: k in keys <==> k in RoundSet(db.pending, round)
  {
    OfRoundOnly(db.pending, PendingIn(db.pending, round.scope), round.roundId)
  }

  ghost predicate InOrder(pending: map<Key, Effect>, keys: seq<Key>) {
    forall i, j | 0 <= i < j < |keys| :: Earlier(pending, keys[i], keys[j])
  }

  lemma {:induction false} FilterAscends(pending: map<Key, Effect>, keys: seq<Key>, roundId: string)
    requires forall k | k in keys :: k in pending
    requires InOrder(pending, keys)
    ensures InOrder(pending, OfRoundOnly(pending, keys, roundId))
  {
    if keys != [] {
      var n := |keys| - 1;
      FilterAscends(pending, keys[..n], roundId);
      var r := OfRoundOnly(pending, keys[..n], roundId);
      forall i | 0 <= i < |r| ensures Earlier(pending, r[i], keys[n]) {
        assert r[i] in keys[..n];
      }
    }
  }

  lemma RoundAscends(db: Db, round: RoundKey)
    ensures InOrder(db.pending, RoundKeys(db, round))
  {
    FilterAscends(db.pending, PendingIn(db.pending, round.scope), round.roundId);
  }

  /** An ascending list of exactly the round's overlays is the list that the preview reads. */
  lemma OnlyListing(db: Db, round: RoundKey, keys: seq<Key>)
    requires InOrder(db.pending, keys)
    requires forall k :: k in keys <==> k in RoundSet(db.pending, round)
    ensures RoundKeys(db, round) == keys
  {
    RoundAscends(db, round);
    ListingIsUnique(RoundSet(db.pending, round), (a, b) => Earlier(db.pending, a, b), RoundKeys(db, round), keys);
  }

  lemma SameRound(db: Db, after: Db, round: RoundKey)
    requires RoundSet(after.pending, round) == RoundSet(db.pending, round)
    requires forall k | k in RoundSet(db.pending, round) :: after.pending[k] == db.pending[k]
    ensures RoundKeys(after, round) == RoundKeys(db, round)
  {
    RoundAscends(db, round);
    assert forall k | k in RoundKeys(db, round) :: k in RoundSet(db.pending, round);
    OnlyListing(after, round, RoundKeys(db, round));
  }

  lemma InOrderWithLast(pending: map<Key, Effect>, after: map<Key, Effect>, keys: seq<Key>, k: Key)
    requires InOrder(pending, keys) && k !in pending && k in after && after == pending[k := after[k]]
    requires forall l | l in keys :: l in pending && pending[l].sequence < after[k].sequence
    ensures InOrder(after, keys + [k])
  {
    forall i | 0 <= i < |keys| ensures Earlier(after, keys[i], k) {
      assert keys[i] in keys;
    }
    forall i, j | 0 <= i < j < |keys| ensures Earlier(after, keys[i], keys[j]) {
      assert Earlier(pending, keys[i], keys[j]);
    }
  }

  lemma RoundGrows(db: Db, after: Db, round: RoundKey, k: Key)
    requires k !in db.pending && k in after.pending && after.pending == db.pending[k := after.pending[k]]
    requires k in RoundSet(after.pending, round)
    ensures RoundSet(after.pending, round) == RoundSet(db.pending, round) + {k}
  {
  }

  lemma AddedLast(db: Db, after: Db, round: RoundKey, k: Key)
    requires k !in db.pending && k in after.pending && after.pending == db.pending[k := after.pending[k]]
    requires k in RoundSet(after.pending, round)
    requires forall l | l in RoundSet(db.pending, round) :: db.pending[l].sequence < after.pending[k].sequence
    ensures RoundKeys(after, round) == RoundKeys(db, round) + [k]
  {
    var keys := RoundKeys(db, round);
    RoundAscends(db, round);
    assert forall l | l in keys :: l in RoundSet(db.pending, round);
    InOrderWithLast(db.pending, after.pending, keys, k);
    RoundGrows(db, after, round, k);
    OnlyListing(after, round, keys + [k]);
  }

  lemma KeptMembers(pending: map<Key, Effect>, keys: seq<Key>, i: nat)
    requires i < |keys| && InOrder(pending, keys)
    ensures forall l :: l in keys[..i] + keys[i + 1..] <==> l in keys && l != keys[i]
  {
    var kept := keys[..i] + keys[i + 1..];
    assert forall j | 0 <= j < i :: Earlier(pending, keys[j], keys[i]);
    assert forall j | i < j < |keys| :: Earlier(pending, keys[i], keys[j]);
    forall l | l in keys && l != keys[i] ensures l in kept {
      var j :| 0 <= j < |keys| && keys[j] == l;
      assert kept[if j < i then j else j - 1] == l;
    }
  }

  lemma KeptInOrder(pending: map<Key, Effect>, keys: seq<Key>, i: nat)
    requires i < |keys| && InOrder(pending, keys)
    ensures InOrder(pending - {keys[i]}, keys[..i] + keys[i + 1..])
  {
    var kept := keys[..i] + keys[i + 1..];
    forall j, l | 0 <= j < l < |kept| ensures Earlier(pending - {keys[i]}, kept[j], kept[l]) {
      var a, b := if j < i then j else j + 1, if l < i then l else l + 1;
      assert Earlier(pending, keys[a], keys[b]);
      assert keys[a] != keys[i] && keys[b] != keys[i] by {
        assert a < i ==> Earlier(pending, keys[a], keys[i]);
        assert a > i ==> Earlier(pending, keys[i], keys[a]);
        assert b < i ==> Earlier(pending, keys[b], keys[i]);
        assert b > i ==> Earlier(pending, keys[i], keys[b]);
      }
    }
  }

  lemma Removed(db: Db, after: Db, round: RoundKey, i: nat)
    requires i < |RoundKeys(db, round)| && after.pending == db.pending - {RoundKeys(db, round)[i]}
    ensures RoundKeys(after, round) == RoundKeys(db, round)[..i] + RoundKeys(db, round)[i + 1..]
  {
    var keys := RoundKeys(db, round);
    RoundAscends(db, round);
    KeptMembers(db.pending, keys, i);
    KeptInOrder(db.pending, keys, i);
    assert RoundSet(after.pending, round) == RoundSet(db.pending, round) - {keys[i]};
    OnlyListing(after, round, keys[..i] + keys[i + 1..]);
  }

  // ----- Which commands are held back -----

  /** Some predecessor of the action has a receipt that is not an acceptance. */
  predicate Refusing(db: Db, k: Key) {
    k in db.actions && HeldBack(db, k.scope, db.actions[k].envelope, {})
  }

  predicate Follows(db: Db, a: Key, b: Key) {
    Refusing(db, b) || (b in db.actions && a.id in db.actions[b].envelope.dependsOn)
  }

  ghost predicate Chained(db: Db, keys: seq<Key>) {
    forall i, j | 0 <= i < j < |keys| && j == i + 1 :: Follows(db, keys[i], keys[j])
  }

  function FirstRefusing(db: Db, keys: seq<Key>): (m: nat)
    ensures m <= |keys| && forall i | 0 <= i < m :: !Refusing(db, keys[i])
    ensures m < |keys| ==> Refusing(db, keys[m])
  {
    if keys == [] then 0
    else if Refusing(db, keys[0]) then 0
    else 1 + FirstRefusing(db, keys[1..])
  }

  function Envelopes(db: Db, keys: seq<Key>): seq<Envelope> {
    if keys == [] then []
    else
      var k := keys[|keys| - 1];
      Envelopes(db, keys[..|keys| - 1]) + if k in db.actions then [db.actions[k].envelope] else []
  }

  function Ids(keys: seq<Key>): (r: set<Id>)
    ensures forall i | 0 <= i < |keys| :: keys[i].id in r
    ensures keys == [] ==> r == {}
  {
    set k | k in keys :: k.id
  }

  ghost predicate Readable(db: Db, scope: Scope, keys: seq<Key>) {
    forall k | k in keys :: k.scope == scope && k in db.actions && ActionFits(db, k)
  }

  /** What the preview makes of the overlays: it shows those before the first refusing one. */
  function Split(db: Db, keys: seq<Key>): Overlay {
    var m := FirstRefusing(db, keys);
    Overlay(Envelopes(db, keys[..m]), Ids(keys[m..]))
  }

  lemma RefusingIsHeld(db: Db, k: Key, blocked: set<Id>)
    requires Refusing(db, k)
    ensures HeldBack(db, k.scope, db.actions[k].envelope, blocked)
  {
    var e := db.actions[k].envelope;
    var id :| id in e.dependsOn && Key(k.scope, id) in db.acks && !db.acks[Key(k.scope, id)].receipt.business.Accepted?;
  }

  lemma LastIsHeld(db: Db, keys: seq<Key>, m: nat, n: nat)
    requires m <= n < |keys| && Chained(db, keys) && Refusing(db, keys[m]) && keys[n] in db.actions
    ensures HeldBack(db, keys[n].scope, db.actions[keys[n]].envelope, Ids(keys[m..n]))
  {
    if Refusing(db, keys[n]) {
      RefusingIsHeld(db, keys[n], Ids(keys[m..n]));
    } else {
      assert Follows(db, keys[n - 1], keys[n]);
      assert keys[m..n][n - 1 - m] == keys[n - 1];
    }
  }

  lemma OverlaidNext(db: Db, keys: seq<Key>, i: nat, o: Overlay)
    requires i < |keys| && Overlaid(db, keys[..i]) == Ok(o) && keys[i] in db.actions && ActionFits(db, keys[i])
    ensures var e := db.actions[keys[i]].envelope;
      Overlaid(db, keys[..i + 1]) ==
        Ok(if HeldBack(db, keys[i].scope, e, o.blocked) then o.(blocked := o.blocked + {keys[i].id})
           else o.(commands := o.commands + [e]))
  {
    assert keys[..i + 1][..i] == keys[..i];
  }

  lemma EnvelopesNext(db: Db, keys: seq<Key>, i: nat)
    requires i < |keys| && keys[i] in db.actions
    ensures Envelopes(db, keys[..i + 1]) == Envelopes(db, keys[..i]) + [db.actions[keys[i]].envelope]
  {
    assert keys[..i + 1][..i] == keys[..i];
  }

  lemma {:induction false} ShowsUpTo(db: Db, scope: Scope, keys: seq<Key>, i: nat)
    requires i <= FirstRefusing(db, keys) && Readable(db, scope, keys)
    ensures Overlaid(db, keys[..i]) == Ok(Overlay(Envelopes(db, keys[..i]), {}))
  {
    if i > 0 {
      ShowsUpTo(db, scope, keys, i - 1);
      assert keys[i - 1] in keys && !Refusing(db, keys[i - 1]);
      EnvelopesNext(db, keys, i - 1);
      OverlaidNext(db, keys, i - 1, Overlay(Envelopes(db, keys[..i - 1]), {}));
    }
  }

  lemma HoldsNext(db: Db, keys: seq<Key>, m: nat, shown: seq<Envelope>, n: nat)
    requires m <= n < |keys| && Chained(db, keys) && Refusing(db, keys[m]) && keys[n] in db.actions && ActionFits(db, keys[n])
    requires Overlaid(db, keys[..n]) == Ok(Overlay(shown, Ids(keys[m..n])))
    ensures Overlaid(db, keys[..n + 1]) == Ok(Overlay(shown, Ids(keys[m..n + 1])))
  {
    LastIsHeld(db, keys, m, n);
    OverlaidNext(db, keys, n, Overlay(shown, Ids(keys[m..n])));
    IdsNext(keys, m, n);
  }

  lemma IdsNext(keys: seq<Key>, m: nat, i: nat)
    requires m <= i < |keys|
    ensures Ids(keys[m..i + 1]) == Ids(keys[m..i]) + {keys[i].id}
  {
    assert keys[m..i + 1] == keys[m..i] + [keys[i]];
  }

  /** The shorter listing is as readable and as chained, and begins with the same overlays. */
  lemma FrontKeeps(db: Db, scope: Scope, keys: seq<Key>, m: nat)
    requires m < |keys| && Readable(db, scope, keys) && Chained(db, keys)
    ensures var front := keys[..|keys| - 1];
            Readable(db, scope, front) && Chained(db, front) && front[..m] == keys[..m] && (m < |front| ==> front[m] == keys[m])
  {
    var front := keys[..|keys| - 1];
    forall k | k in front ensures k in keys {
    }
    forall i, j | 0 <= i < j < |front| && j == i + 1 ensures Follows(db, front[i], front[j]) {
      assert Follows(db, keys[i], keys[j]);
    }
  }

  lemma LastHolds(db: Db, scope: Scope, keys: seq<Key>, m: nat, shown: seq<Envelope>)
    requires m < |keys| && Readable(db, scope, keys) && Chained(db, keys) && Refusing(db, keys[m])
    requires Overlaid(db, keys[..|keys| - 1]) == Ok(Overlay(shown, Ids(keys[..|keys| - 1][m..])))
    ensures Overlaid(db, keys) == Ok(Overlay(shown, Ids(keys[m..])))
  {
    var n := |keys| - 1;
    assert keys[n] in keys;
    assert keys[..n][m..] == keys[m..n];
    HoldsNext(db, keys, m, shown, n);
    assert keys[..n + 1] == keys && keys[m..n + 1] == keys[m..];
  }

  /** From the first refused overlay on everything is held back. */
  lemma {:induction false} HoldsFrom(db: Db, scope: Scope, keys: seq<Key>, m: nat, shown: seq<Envelope>)
    requires m <= |keys| && Readable(db, scope, keys) && Chained(db, keys)
    requires m < |keys| ==> Refusing(db, keys[m])
    requires Overlaid(db, keys[..m]) == Ok(Overlay(shown, {}))
    ensures Overlaid(db, keys) == Ok(Overlay(shown, Ids(keys[m..])))
    decreases |keys|
  {
    if m == |keys| {
      assert keys[..m] == keys && keys[m..] == [];
    } else {
      FrontKeeps(db, scope, keys, m);
      HoldsFrom(db, scope, keys[..|keys| - 1], m, shown);
      LastHolds(db, scope, keys, m, shown);
    }
  }

  /** The commands before the first refusing one are shown; it and everything after it is held back. */
  lemma OverlaySplits(db: Db, scope: Scope, keys: seq<Key>)
    requires Readable(db, scope, keys) && Chained(db, keys)
    ensures Overlaid(db, keys) == Ok(Split(db, keys))
  {
    var m := FirstRefusing(db, keys);
    ShowsUpTo(db, scope, keys, m);
    HoldsFrom(db, scope, keys, m, Envelopes(db, keys[..m]));
  }
}
