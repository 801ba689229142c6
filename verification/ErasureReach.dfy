/** What erasure does not reach: the address a slot is booked for (apps/api/app/models.py,
    apps/api/app/routers_dsar.py), and the reminders sent to it (apps/api/app/routers_reminders.py). */
module ErasureReach {
  import opened Common
  import opened Erasure
  import opened SlotStore

  /** The tables the lookup searches, and the slots beside them. */
  datatype Tables = Tables(db: Db, slots: seq<Row>)

  function EraseIn(text: TextOps, t: Tables, org: nat, email: string): (t': Tables) {
    t.(db := Erase(text, t.db, org, email))
  }

  predicate BookedFor(text: TextOps, row: Row, org: nat, key: string) {
    row.org == org && !row.open && row.bookedFor.Some? && text.lower(row.bookedFor.value) == key
  }

  /** Some slot of the organization is booked for the address. */
  predicate HasBooking(text: TextOps, t: Tables, org: nat, key: string) {
    exists row :: row in t.slots && BookedFor(text, row, org, key)
  }

  /** The organization's tables name the address nowhere: no lookup finds it, and no slot is booked for it. */
  predicate Untraced(text: TextOps, t: Tables, org: nat, email: string) {
    !Any(Find(text, t.db, org, email)) && !HasBooking(text, t, org, Normal(text, email))
  }

  /** A run at this time sends a reminder to the address. */
  ghost predicate Reminds(text: TextOps, t: Tables, org: nat, key: string, now: int) {
    exists s :: s in SentBy(t.slots, org, now) && GoesTo(text, t, s, key)
  }

  predicate GoesTo(text: TextOps, t: Tables, s: Sent, key: string) {
    s.slot < |t.slots| && t.slots[s.slot].bookedFor.Some? && text.lower(t.slots[s.slot].bookedFor.value) == key
  }

  /** A slot booked for the address has a reminder that is due by then and unsent. */
  predicate HasDue(text: TextOps, t: Tables, org: nat, key: string, now: int) {
    exists i | 0 <= i < |t.slots| :: DueFor(text, t.slots[i], org, key, now)
  }

  predicate DueFor(text: TextOps, row: Row, org: nat, key: string, now: int) {
    BookedFor(text, row, org, key) && (Fires(row, org, now, W24h) || Fires(row, org, now, W1h))
  }

  /** Or one that is not sent yet, due or not. */
  predicate HasUnsent(text: TextOps, t: Tables, org: nat, key: string) {
    exists i | 0 <= i < |t.slots| :: UnsentFor(text, t.slots[i], org, key)
  }

  predicate UnsentFor(text: TextOps, row: Row, org: nat, key: string) {
    BookedFor(text, row, org, key) && (row.sent24h.None? || row.sent1h.None?)
  }

  /** After an erasure the address is gone exactly when it is no generated one and no slot was booked for it. */
  lemma UntracedIff(text: TextOps, t: Tables, org: nat, email: string)
    ensures Untraced(text, EraseIn(text, t, org, email), org, email)
       <==> !IsAlias(text, t.db, Find(text, t.db, org, email), Normal(text, email))
            && forall row | row in t.slots :: !BookedFor(text, row, org, Normal(text, email))
  {
    NothingLeftIff(text, t.db, org, email);
  }

  lemma SentIff(rows: seq<Row>, org: nat, now: int, s: Sent)
    ensures s in SentBy(rows, org, now) <==> s.slot < |rows| && Fires(rows[s.slot], org, now, s.window)
  {
    SentCount(rows, org, now, s);
  }

  lemma RemindsIffDue(text: TextOps, t: Tables, org: nat, key: string, now: int)
    ensures Reminds(text, t, org, key, now) <==> HasDue(text, t, org, key, now)
  {
    if Reminds(text, t, org, key, now) {
      var s :| s in SentBy(t.slots, org, now) && GoesTo(text, t, s, key);
      SentIff(t.slots, org, now, s);
      assert DueFor(text, t.slots[s.slot], org, key, now);
    }
    if HasDue(text, t, org, key, now) {
      var i: nat :| i < |t.slots| && DueFor(text, t.slots[i], org, key, now);
      var s := Sent(i, if Fires(t.slots[i], org, now, W24h) then W24h else W1h);
      SentIff(t.slots, org, now, s);
      assert GoesTo(text, t, s, key);
    }
  }

  /** An erased address is still reminded by a run exactly when a slot booked for it has a reminder due and
      unsent, as it was before the erasure; whatever address is erased changes nothing about any reminder. */
  lemma ErasedIsRemindedIff(text: TextOps, t: Tables, org: nat, email: string, now: int)
    ensures Reminds(text, EraseIn(text, t, org, email), org, Normal(text, email), now)
       <==> HasDue(text, t, org, Normal(text, email), now)
  {
    RemindsIffDue(text, EraseIn(text, t, org, email), org, Normal(text, email), now);
  }


  /** So it is reminded at some time still to come exactly when one of its booked slots has an unsent reminder. */
  lemma ErasedIsEverRemindedIff(text: TextOps, t: Tables, org: nat, email: string, from: int)
    ensures var key := Normal(text, email);
            (exists now: int :: from <= now && Reminds(text, EraseIn(text, t, org, email), org, key, now))
            <==> HasUnsent(text, t, org, key)
  {
    var key := Normal(text, email);
    var t' := EraseIn(text, t, org, email);
    if now: int :| from <= now && Reminds(text, t', org, key, now) {
      ErasedIsRemindedIff(text, t, org, email, now);
      var i: nat :| i < |t.slots| && DueFor(text, t.slots[i], org, key, now);
      assert UnsentFor(text, t.slots[i], org, key);
    }
    if HasUnsent(text, t, org, key) {
      var i: nat :| i < |t.slots| && UnsentFor(text, t.slots[i], org, key);
      var now := if from <= t.slots[i].start then t.slots[i].start else from;
      assert DueFor(text, t.slots[i], org, key, now);
      ErasedIsRemindedIff(text, t, org, email, now);
      assert Reminds(text, t', org, key, now);
    }
  }

  /** An instance: one session and one slot, both for the address, and both reminders still to be sent. */
  lemma ErasedButReminded(org: nat, uuid: string, email: string)
    requires email != Alias(uuid)
    ensures var t := Tables(NoRows().(sessions := [Session(org, uuid, email)]),
                            [Row(org, 0, 0, HOUR, false, Some(email), None, None)]);
            var t' := EraseIn(PlainText(), t, org, email);
            !Any(Find(PlainText(), t'.db, org, email)) && Reminds(PlainText(), t', org, email, 0)
  {
    var t := Tables(NoRows().(sessions := [Session(org, uuid, email)]),
                    [Row(org, 0, 0, HOUR, false, Some(email), None, None)]);
    NothingLeftIff(PlainText(), t.db, org, email);
    assert DueFor(PlainText(), t.slots[0], org, email, 0);
    ErasedIsRemindedIff(PlainText(), t, org, email, 0);
  }
}
