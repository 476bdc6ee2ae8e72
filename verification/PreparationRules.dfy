// When a preparation goes through, in terms of the requests, the senders and the rows in the table.
module PreparationRules {
  import opened Wrappers
  import opened Notifications

  // The i-th request stores its channel's row: it is the first for that channel that does not wait
  // for the digest.
  predicate Stores(c: Case, terms: Terms, i: nat) {
    && i < |c.channels| && !WantsDigest(c, terms, i)
    && forall j: nat :: j < i && c.channels[j] == c.channels[i] ==> WantsDigest(c, terms, j)
  }

  predicate StoresFor(c: Case, terms: Terms, i: nat, channel: Channel) {
    i < |c.channels| && c.channels[i] == channel && Stores(c, terms, i)
  }

  // One of the first n requests stores the channel's row.
  predicate HasRow(c: Case, terms: Terms, n: nat, channel: Channel) {
    exists i: nat :: i < n && StoresFor(c, terms, i, channel)
  }

  // The provider of that row: the suppression list comes first, then the preference, then the
  // configured sender, and the local one stands in.
  function RowProvider(c: Case, terms: Terms, i: nat): ProviderKey
    requires i < |c.channels|
  {
    var channel := c.channels[i];
    if channel in terms.screened then "suppression"
    else if Wants(c, terms, i, channel, Disabled) then "preference"
    else if channel in terms.senders then terms.senders[channel]
    else "stdout"
  }

  // Some row of another intent has this provider and no message id.
  predicate StandsElsewhere(s: Tables, intent: IntentId, provider: ProviderKey) {
    exists i, x :: i in s.cases && i != intent && x in s.cases[i].deliveries &&
      s.cases[i].deliveries[x].key == RowKey(provider, None)
  }

  // In production whatever is to be delivered has a sender; the rows to store are from different
  // providers, and no other intent has a row without a message id from any of them.
  predicate Possible(s: Tables, intent: IntentId, terms: Terms)
    requires intent in s.cases
  {
    var c := s.cases[intent];
    && (terms.production ==>
          forall i: nat :: i < |c.channels| && WantsNow(c, terms, i) ==> c.channels[i] in terms.senders)
    && (forall i: nat :: i < |c.channels| && Stores(c, terms, i) ==>
          !StandsElsewhere(s, intent, RowProvider(c, terms, i)))
    && (forall i: nat, j: nat :: i < j < |c.channels| && Stores(c, terms, i) && Stores(c, terms, j) ==>
          RowProvider(c, terms, i) != RowProvider(c, terms, j))
  }

  lemma StandingIsElsewhere(s: Tables, intent: IntentId, provider: ProviderKey)
    ensures provider in Standing(s.cases, intent) <==> StandsElsewhere(s, intent, provider)
  {
    if StandsElsewhere(s, intent, provider) {
      var i, x :| i in s.cases && i != intent && x in s.cases[i].deliveries &&
        s.cases[i].deliveries[x].key == RowKey(provider, None);
      assert provider in Unsent(s.cases[i].deliveries);
    }
  }

  lemma StoredNext(c: Case, terms: Terms, n: nat, x: Channel)
    requires n < |c.channels| && (c.channels[n] in Stored(c, terms, n) <==> HasRow(c, terms, n, c.channels[n]))
    ensures Stored(c, terms, n + 1) ==
            if Stores(c, terms, n) then Stored(c, terms, n)[c.channels[n] := RowProvider(c, terms, n)]
            else Stored(c, terms, n)
    ensures HasRow(c, terms, n + 1, x) <==> HasRow(c, terms, n, x) || StoresFor(c, terms, n, x)
    ensures HasRow(c, terms, n, c.channels[n]) ==> !Stores(c, terms, n)
  {
    WishOf(c, terms, n);
    var here, p := c.channels[n], PreferenceAt(terms.preferences, n);
    assert Wants(c, terms, n, here, p);
    hide WantsDigest, WantsNow;
    if here !in Stored(c, terms, n) && !WantsDigest(c, terms, n) {
      forall i: nat | i < n && c.channels[i] == here
        ensures !Stores(c, terms, i)
      {
        assert !StoresFor(c, terms, i, here);
      }
      FirstRequestStores(c, terms, n);
    }
  }

  lemma FirstNext(c: Case, terms: Terms, n: nat, x: Channel)
    requires n < |c.channels|
    ensures FirstInsert(c, terms, x, n + 1) ==
            if FirstInsert(c, terms, x, n).None? && c.channels[n] == x && !WantsDigest(c, terms, n)
            then Some(Decide(PreferenceAt(terms.preferences, n), x)) else FirstInsert(c, terms, x, n)
  {
    WishOf(c, terms, n);
    hide WantsDigest, WantsNow;
  }

  lemma {:induction false} FirstByRequests(c: Case, terms: Terms, n: nat, x: Channel, i: nat)
    requires i < n <= |c.channels| && StoresFor(c, terms, i, x)
    ensures FirstInsert(c, terms, x, n) == Some(Decide(PreferenceAt(terms.preferences, i), x))
  {
    FirstNext(c, terms, n - 1, x);
    if i < n - 1 {
      FirstByRequests(c, terms, n - 1, x, i);
    } else {
      NoneBefore(c, terms, i, x, i);
    }
  }

  lemma {:induction false} NoneBefore(c: Case, terms: Terms, n: nat, x: Channel, i: nat)
    requires n <= i < |c.channels| && StoresFor(c, terms, i, x)
    ensures FirstInsert(c, terms, x, n) == None
  {
    if n > 0 {
      NoneBefore(c, terms, n - 1, x, i);
      FirstNext(c, terms, n - 1, x);
    }
  }

  // The stored rows of the first n requests are those of the requests among them that store.
  lemma {:induction false} StoredByRequests(c: Case, terms: Terms, n: nat, x: Channel)
    requires n <= |c.channels|
    ensures x in Stored(c, terms, n) <==> HasRow(c, terms, n, x)
    ensures forall i: nat :: i < n && StoresFor(c, terms, i, x) ==> Stored(c, terms, n)[x] == RowProvider(c, terms, i)
  {
    hide WantsDigest, RowProvider, Stores, HasRow;
    if n > 0 {
      StoredByRequests(c, terms, n - 1, x);
      StoredByRequests(c, terms, n - 1, c.channels[n - 1]);
      StoredNext(c, terms, n - 1, x);
      forall i: nat | i < n - 1 && StoresFor(c, terms, i, x)
        ensures HasRow(c, terms, n - 1, x)
      {
        RowIsHad(c, terms, n - 1, x, i);
      }
    } else {
      NoRow(c, terms, x);
    }
  }

  function RowState(c: Case, terms: Terms, i: nat): DeliveryState
    requires i < |c.channels|
  {
    if c.channels[i] in terms.screened || Wants(c, terms, i, c.channels[i], Disabled) then Withheld else Waiting
  }

  lemma StateOfRow(c: Case, terms: Terms, i: nat, x: Channel)
    requires StoresFor(c, terms, i, x)
    ensures StateOf(terms, x, Decide(PreferenceAt(terms.preferences, i), x)) == RowState(c, terms, i)
  {
    WishOf(c, terms, i);
    assert Wants(c, terms, i, x, PreferenceAt(terms.preferences, i));
  }

  lemma RowIsHad(c: Case, terms: Terms, n: nat, x: Channel, i: nat)
    requires i < n && StoresFor(c, terms, i, x)
    ensures HasRow(c, terms, n, x)
  {
  }

  lemma NoRow(c: Case, terms: Terms, x: Channel)
    ensures !HasRow(c, terms, 0, x) && Stored(c, terms, 0) == map[]
  {
  }

  lemma {:induction false} FirstRequestStores(c: Case, terms: Terms, n: nat)
    requires n < |c.channels| && !WantsDigest(c, terms, n)
    requires forall i: nat :: i < n && c.channels[i] == c.channels[n] ==> !Stores(c, terms, i)
    ensures Stores(c, terms, n)
  {
    forall j: nat | j < n && c.channels[j] == c.channels[n]
      ensures WantsDigest(c, terms, j)
    {
      if !WantsDigest(c, terms, j) {
        FirstRequestStores(c, terms, j);
        assert false;
      }
    }
  }

  lemma FreeExactlyWhenPossible(s: Tables, intent: IntentId, terms: Terms)
    requires intent in s.cases
    ensures IsFree(s, intent, terms) <==> Possible(s, intent, terms)
  {
    var c := s.cases[intent];
    var n := |c.channels|;
    forall i: nat | i < n
      ensures Decides(c, terms, i, Deliver) <==> WantsNow(c, terms, i)
    {
      WishOf(c, terms, i);
    }
    forall i: nat | i < n
      ensures RowProvider(c, terms, i) in Standing(s.cases, intent) <==>
              StandsElsewhere(s, intent, RowProvider(c, terms, i))
    {
      StandingIsElsewhere(s, intent, RowProvider(c, terms, i));
    }
    hide WantsNow, Standing, StandsElsewhere, RowProvider, Stored, Decides, Stores, Apart;
    RowsApart(c, terms, Standing(s.cases, intent));
  }

  lemma RowsApart(c: Case, terms: Terms, standing: set<ProviderKey>)
    ensures Apart(Stored(c, terms, |c.channels|), standing) <==>
            && (forall i: nat :: i < |c.channels| && Stores(c, terms, i) ==> RowProvider(c, terms, i) !in standing)
            && (forall i: nat, j: nat :: i < j < |c.channels| && Stores(c, terms, i) && Stores(c, terms, j) ==>
                  RowProvider(c, terms, i) != RowProvider(c, terms, j))
  {
    hide RowProvider, Stored, WantsDigest;
    var rows, n := Stored(c, terms, |c.channels|), |c.channels|;
    forall x
      ensures x in rows <==> HasRow(c, terms, n, x)
      ensures forall i: nat :: i < n && StoresFor(c, terms, i, x) ==> rows[x] == RowProvider(c, terms, i)
    {
      StoredByRequests(c, terms, n, x);
    }
    forall i: nat, j: nat | i < j < n && Stores(c, terms, i) && Stores(c, terms, j)
      ensures c.channels[i] != c.channels[j]
    {
    }
    hide Stores;
    forall i: nat | i < n && Stores(c, terms, i)
      ensures c.channels[i] in rows && rows[c.channels[i]] == RowProvider(c, terms, i)
    {
      assert StoresFor(c, terms, i, c.channels[i]);
    }
    forall x | x in rows
      ensures exists i: nat :: i < n && Stores(c, terms, i) && c.channels[i] == x
    {
      var i: nat :| i < n && StoresFor(c, terms, i, x);
    }
  }

  /** A preparation goes through if and only if, in production, everything to be delivered has a
      sender, and the rows to store are from different providers of which no other intent has an
      unsent row.  Then the channels with a row are those of the requests that store one, each with
      its provider and to be sent unless it is screened or disabled; otherwise the intent is a dead
      letter without rows. */
  lemma PreparedExactlyWhen(s: Tables, process: nat, intent: IntentId, terms: Terms)
    requires IsPreparing(s, process, intent)
    ensures var c := s.cases[intent];
            var after := Step(s, Prepare(process, intent, Prepared(terms))).cases[intent];
            if Possible(s, intent, terms) then
              && (forall x :: x in after.deliveries <==> HasRow(c, terms, |c.channels|, x))
              && (forall i: nat, x :: i < |c.channels| && StoresFor(c, terms, i, x) ==>
                    && x in after.deliveries && after.deliveries[x].key == RowKey(RowProvider(c, terms, i), None)
                    && after.deliveries[x].state == RowState(c, terms, i))
            else after.deliveries == map[] && after.status == DeadLetter
  {
    var c, n := s.cases[intent], |s.cases[intent].channels|;
    FreeExactlyWhenPossible(s, intent, terms);
    CommitsExactlyWhen(s, process, intent, terms);
    assert c.deliveries == map[];
    hide Stores, RowProvider, Stored, ConsiderAll, Possible, IsFree, Step, CaseInv, ProviderOf, StateOf, FirstInsert,
        HasRow;
    forall x
      ensures x in ConsiderAll(c, terms, n, s.clock).deliveries <==> HasRow(c, terms, n, x)
      ensures forall i: nat :: i < n && StoresFor(c, terms, i, x) ==>
              x in ConsiderAll(c, terms, n, s.clock).deliveries &&
              ConsiderAll(c, terms, n, s.clock).deliveries[x].key == RowKey(RowProvider(c, terms, i), None) &&
              ConsiderAll(c, terms, n, s.clock).deliveries[x].state == RowState(c, terms, i)
    {
      StoredByRequests(c, terms, n, x);
      FirstInsertWins(c, terms, n, s.clock, x);
      forall i: nat | i < n && StoresFor(c, terms, i, x)
        ensures HasRow(c, terms, n, x)
        ensures FirstInsert(c, terms, x, n) == Some(Decide(PreferenceAt(terms.preferences, i), x))
        ensures StateOf(terms, x, Decide(PreferenceAt(terms.preferences, i), x)) == RowState(c, terms, i)
      {
        RowIsHad(c, terms, n, x, i);
        FirstByRequests(c, terms, n, x, i);
        StateOfRow(c, terms, i, x);
      }
    }
  }
}
