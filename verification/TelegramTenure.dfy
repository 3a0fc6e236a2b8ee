/** Who owns a chat over a whole run, and which relays get through. */
module TelegramTenure {
  import opened Lists
  import opened Telegram

  ghost function BindingAt(ops: seq<Op>, conv: string, k: nat): Option<Binding>
    requires k <= |ops|
  {
    Lookup(After(ops, k).bindings, conv)
  }

  /** One operation's effect on the binding of one chat. */
  function BindingAfter(b: Option<Binding>, s: State, op: Op, conv: string): Option<Binding> {
    match op
    case Claim(profile, now) =>
      if conv in s.files then ClaimedBinding(b, HasWaiting(s, conv), profile, now) else b
    case Beat(profile, now) => if b.Some? then Some(BeatBinding(b.value, profile, now)) else None
    case Sweep(now) => if b.Some? && Stale(b.value, now) then None else b
    case Off(c) => if c == conv then None else b
    case _ => b
  }

  lemma StepBinding(s: State, op: Op, conv: string)
    ensures Lookup(Step(s, op).bindings, conv) == BindingAfter(Lookup(s.bindings, conv), s, op, conv)
  {
  }

  /** Owner changes since the binding was last absent. */
  ghost function OwnerChanges(ops: seq<Op>, conv: string, k: nat): nat
    requires k <= |ops|
  {
    if k == 0 || BindingAt(ops, conv, k).None? || BindingAt(ops, conv, k - 1).None? then 0
    else
      OwnerChanges(ops, conv, k - 1)
      + if BindingAt(ops, conv, k).value.profile != BindingAt(ops, conv, k - 1).value.profile then 1 else 0
  }

  /** A chat's epoch is the number of owner changes since its binding was last absent. */
  lemma {:induction false} EpochCountsOwnerChanges(ops: seq<Op>, conv: string, k: nat)
    requires k <= |ops| && BindingAt(ops, conv, k).Some?
    ensures BindingAt(ops, conv, k).value.epoch == OwnerChanges(ops, conv, k)
  {
    if k > 0 {
      StepBinding(After(ops, k - 1), ops[k - 1], conv);
      if BindingAt(ops, conv, k - 1).Some? {
        EpochCountsOwnerChanges(ops, conv, k - 1);
      }
    }
  }

  /** While a chat stays bound its owner changes only in a claim by the new owner, of a
      binding whose heartbeat is at least the TTL old, with something waiting. */
  lemma OwnerChangesOnlyInAStaleClaim(s: State, op: Op, conv: string)
    requires conv in s.bindings && conv in Step(s, op).bindings
    ensures var b, c := s.bindings[conv], Step(s, op).bindings[conv];
      && (b.profile != c.profile <==> b.epoch != c.epoch)
      && (b.profile != c.profile ==>
            && op.Claim? && op.profile == c.profile && op.now - b.lastBeat >= 15_000
            && HasWaiting(s, conv) && c.epoch == b.epoch + 1)
  {
    StepBinding(s, op, conv);
  }

  // ── stretches ─────────────────────────────────────────────────────────

  /** The chat is bound after every operation from the `i`-th to the `j`-th. */
  ghost predicate BoundThroughout(ops: seq<Op>, conv: string, i: nat, j: nat)
    requires i <= j <= |ops|
  {
    BindingAt(ops, conv, j).Some? && (j == i || BoundThroughout(ops, conv, i, j - 1))
  }

  /** All that time it is the same tenure: the same owner at the same epoch. */
  ghost predicate SameTenure(ops: seq<Op>, conv: string, i: nat, j: nat, profile: string, epoch: nat)
    requires i <= j <= |ops|
  {
    && BindingAt(ops, conv, j).Some?
    && BindingAt(ops, conv, j).value.profile == profile && BindingAt(ops, conv, j).value.epoch == epoch
    && (j == i || SameTenure(ops, conv, i, j - 1, profile, epoch))
  }

  lemma {:induction false} EpochNeverDrops(ops: seq<Op>, conv: string, i: nat, j: nat)
    requires i <= j <= |ops| && BoundThroughout(ops, conv, i, j)
    ensures BindingAt(ops, conv, i).Some?
    ensures BindingAt(ops, conv, i).value.epoch <= BindingAt(ops, conv, j).value.epoch
    ensures BindingAt(ops, conv, i).value.epoch == BindingAt(ops, conv, j).value.epoch
        ==> SameTenure(ops, conv, i, j, BindingAt(ops, conv, i).value.profile, BindingAt(ops, conv, i).value.epoch)
  {
    if j > i {
      EpochNeverDrops(ops, conv, i, j - 1);
      OwnerChangesOnlyInAStaleClaim(After(ops, j - 1), ops[j - 1], conv);
    }
  }

  /** The profile and epoch that the claim at operation `i` returned for the chat. */
  ghost predicate Returned(ops: seq<Op>, conv: string, i: nat, profile: string, epoch: nat)
    requires i < |ops|
  {
    && ops[i].Claim? && ops[i].profile == profile
    && Serves(After(ops, i), profile, ops[i].now, conv)
    && BindingAt(ops, conv, i + 1) == Some(Binding(profile, epoch, ops[i].now))
  }

  /** Every served chat gets an epoch, its owner is the claimer, and its beat is now. */
  lemma ServedChatsAreReturned(ops: seq<Op>, conv: string, i: nat)
    requires i < |ops| && ops[i].Claim? && Serves(After(ops, i), ops[i].profile, ops[i].now, conv)
    ensures exists epoch :: Returned(ops, conv, i, ops[i].profile, epoch)
  {
    hide Step;
    StepBinding(After(ops, i), ops[i], conv);
    assert Returned(ops, conv, i, ops[i].profile, BindingAt(ops, conv, i + 1).value.epoch);
  }

  /** Within a stretch where the chat stays bound, a relay carrying what a claim of that
      stretch returned passes the guard exactly when that tenure has lasted until now,
      also when the chat has meanwhile gone to another profile and come back. */
  lemma RelayPassesIffTenureLasts(ops: seq<Op>, conv: string, i: nat, j: nat, profile: string, epoch: nat)
    requires i < j <= |ops| && BoundThroughout(ops, conv, i + 1, j) && Returned(ops, conv, i, profile, epoch)
    ensures RelayPasses(After(ops, j), conv, Some(profile), Some(epoch))
       <==> SameTenure(ops, conv, i + 1, j, profile, epoch)
  {
    hide After, Serves;
    EpochNeverDrops(ops, conv, i + 1, j);
    if BindingAt(ops, conv, j).value.epoch != epoch {
      assert BindingAt(ops, conv, j).value.epoch > epoch;
    }
  }

  // ── without the stretch ───────────────────────────────────────────────

  lemma {:induction false} TenuresAreBound(ops: seq<Op>, conv: string, i: nat, j: nat, profile: string, epoch: nat)
    requires i <= j <= |ops| && SameTenure(ops, conv, i, j, profile, epoch)
    ensures BoundThroughout(ops, conv, i, j)
  {
    if j > i {
      TenuresAreBound(ops, conv, i, j - 1, profile, epoch);
    }
  }

  /** The chat is now bound at a later epoch, or to another named profile. */
  predicate TurnsAway(b: Option<Binding>, profile: string, epoch: nat) {
    b.Some? && (b.value.epoch > epoch || (profile != "" && b.value.profile != "" && b.value.profile != profile))
  }

  /** In any run the guard decides rightly about a relay carrying what a claim returned, letting
      it pass exactly when that tenure has lasted until now, if and only if the chat has stayed
      bound ever since or its present binding turns the relay away. */
  lemma GuardIsRightIff(ops: seq<Op>, conv: string, i: nat, j: nat, profile: string, epoch: nat)
    requires i < j <= |ops| && Returned(ops, conv, i, profile, epoch)
    ensures (RelayPasses(After(ops, j), conv, Some(profile), Some(epoch)) <==> SameTenure(ops, conv, i + 1, j, profile, epoch))
       <==> BoundThroughout(ops, conv, i + 1, j) || TurnsAway(BindingAt(ops, conv, j), profile, epoch)
  {
    hide After, Serves, Returned;
    if BoundThroughout(ops, conv, i + 1, j) {
      RelayPassesIffTenureLasts(ops, conv, i, j, profile, epoch);
    } else if SameTenure(ops, conv, i + 1, j, profile, epoch) {
      TenuresAreBound(ops, conv, i + 1, j, profile, epoch);
    }
  }

  /** Once a binding has been absent, its epoch starts again at 0. */
  lemma EpochRestarts(ops: seq<Op>, conv: string, k: nat)
    requires k < |ops| && BindingAt(ops, conv, k).None? && BindingAt(ops, conv, k + 1).Some?
    ensures BindingAt(ops, conv, k + 1).value.epoch == 0
    ensures ops[k].Claim? && BindingAt(ops, conv, k + 1).value.profile == ops[k].profile
  {
    StepBinding(After(ops, k), ops[k], conv);
  }

  /** A binding disappears in exactly three ways: the sweep, an explicit unlink, and a
      claim by another profile of a stale binding with nothing readable waiting. */
  lemma BindingsEndIff(s: State, op: Op, conv: string)
    requires conv in s.bindings
    ensures conv !in Step(s, op).bindings <==>
      || (op.Sweep? && op.now - s.bindings[conv].lastBeat >= 15_000)
      || (op.Off? && op.conv == conv)
      || (&& op.Claim? && conv in s.files && !HasWaiting(s, conv)
          && s.bindings[conv].profile != op.profile && op.now - s.bindings[conv].lastBeat >= 15_000)
  {
    StepBinding(s, op, conv);
  }

  ghost predicate GapRun(ops: seq<Op>, conv: string, a: string, b: string) {
    && |ops| == 6
    && ops[0] == Park(conv, 1, "t", 0)
    && ops[1] == Claim(a, 0) && ops[2] == Sweep(TTL)
    && ops[3] == Claim(b, TTL) && ops[4] == Sweep(TTL + TTL)
    && ops[5] == Claim(a, TTL + TTL)
  }

  lemma {:induction false} GapFile(ops: seq<Op>, conv: string, a: string, b: string, k: nat)
    requires GapRun(ops, conv, a, b) && 1 <= k <= 6
    ensures After(ops, k).files == map[conv := [ParkedLine(1, "t", 0)]]
  {
    if k == 1 {
      assert After(ops, 0) == INIT && LinesOf(INIT, conv) == [];
      assert [] + [ParkedLine(1, "t", 0)] == [ParkedLine(1, "t", 0)];
    } else {
      GapFile(ops, conv, a, b, k - 1);
      assert ops[k - 1].Claim? || ops[k - 1].Sweep?;
    }
  }

  lemma GapWaits(ops: seq<Op>, conv: string, a: string, b: string, k: nat)
    requires GapRun(ops, conv, a, b) && 1 <= k <= 6
    ensures conv in After(ops, k).files && HasWaiting(After(ops, k), conv)
  {
    GapFile(ops, conv, a, b, k);
    assert LinesOf(After(ops, k), conv)[..0] == [];
  }

  /** Why the stretch matters: `a` claims, the binding is swept, `b` claims, that is swept
      too, and `a` claims again. The relay of `a`'s first tenure passes as soon as the binding is
      absent, is refused while `b` holds the chat (when `b` is another profile), and passes again
      once `b`'s tenure is over. */
  lemma GapLetsAnOldTenurePass(ops: seq<Op>, conv: string, a: string, b: string)
    requires GapRun(ops, conv, a, b)
    ensures Returned(ops, conv, 1, a, 0)
    ensures BindingAt(ops, conv, 3) == None && RelayPasses(After(ops, 3), conv, Some(a), Some(0))
    ensures BindingAt(ops, conv, 4) == Some(Binding(b, 0, TTL))
    ensures a != "" && b != "" && a != b ==> !RelayPasses(After(ops, 4), conv, Some(a), Some(0))
    ensures RelayPasses(After(ops, 6), conv, Some(a), Some(0))
  {
    hide Step, HasWaiting, Gathered;
    GapWaits(ops, conv, a, b, 1);
    GapWaits(ops, conv, a, b, 3);
    GapWaits(ops, conv, a, b, 5);
    assert BindingAt(ops, conv, 0) == None;
    StepBinding(After(ops, 0), ops[0], conv);
    StepBinding(After(ops, 1), ops[1], conv);
    assert BindingAt(ops, conv, 2) == Some(Binding(a, 0, 0));
    StepBinding(After(ops, 2), ops[2], conv);
    StepBinding(After(ops, 3), ops[3], conv);
    assert BindingAt(ops, conv, 4) == Some(Binding(b, 0, TTL));
    StepBinding(After(ops, 4), ops[4], conv);
    StepBinding(After(ops, 5), ops[5], conv);
  }
}
