/** Heartbeats: a profile that beats often enough keeps its chats. */
module TelegramBeats {
  import opened Lists
  import opened Telegram
  import opened TelegramTenure

  // ── one beat ──────────────────────────────────────────────────────────

  /** After a beat every chat of the profile has a heartbeat less than a second old, with owner and
      epoch as they were; bindings of other profiles stay untouched, and none comes or goes. */
  lemma BeatRefreshes(s: State, profile: string, now: int, conv: string)
    ensures var t := Step(s, Beat(profile, now));
      && t.files == s.files && t.answered == s.answered
      && (conv in t.bindings <==> conv in s.bindings)
      && (conv in s.bindings && s.bindings[conv].profile == profile ==>
            && now - t.bindings[conv].lastBeat < 1_000
            && t.bindings[conv].profile == profile && t.bindings[conv].epoch == s.bindings[conv].epoch
            && (t.bindings[conv].lastBeat == now || t.bindings[conv].lastBeat == s.bindings[conv].lastBeat))
      && (conv in s.bindings && s.bindings[conv].profile != profile ==> t.bindings[conv] == s.bindings[conv])
  {
    hide Gathered;
  }

  /** While the heartbeat is less than 15 seconds old, neither a sweep nor a claim by anyone changes
      owner or epoch, and a claim by another profile changes nothing and is given nothing. */
  lemma FreshBindingStays(s: State, conv: string, op: Op)
    requires conv in s.bindings && (op.Sweep? || op.Claim?) && op.now - s.bindings[conv].lastBeat < 15_000
    ensures var t := Step(s, op);
      && conv in t.bindings
      && t.bindings[conv].profile == s.bindings[conv].profile && t.bindings[conv].epoch == s.bindings[conv].epoch
      && (t.bindings[conv] != s.bindings[conv] ==>
            op.Claim? && op.profile == s.bindings[conv].profile && t.bindings[conv].lastBeat == op.now)
      && (op.Claim? && op.profile != s.bindings[conv].profile ==> !Serves(s, op.profile, op.now, conv))
  {
    hide Gathered;
  }

  /** So for 14 seconds after a beat no sweep and no claim takes the chat from the profile. */
  lemma BeatProtects(s: State, profile: string, now: int, conv: string, op: Op)
    requires conv in s.bindings && s.bindings[conv].profile == profile
    requires (op.Sweep? || op.Claim?) && op.now <= now + 14_000
    ensures var u := Step(Step(s, Beat(profile, now)), op);
      conv in u.bindings && u.bindings[conv].profile == profile && u.bindings[conv].epoch == s.bindings[conv].epoch
  {
    hide Step;
    BeatRefreshes(s, profile, now, conv);
    FreshBindingStays(Step(s, Beat(profile, now)), conv, op);
  }

  // ── runs ──────────────────────────────────────────────────────────────

  predicate Timed(op: Op) {
    op.Claim? || op.Beat? || op.Sweep?
  }

  /** The clock does not run backwards. */
  ghost predicate Clock(ops: seq<Op>) {
    forall a, b :: 0 <= a < b < |ops| && Timed(ops[a]) && Timed(ops[b]) ==> ops[a].now <= ops[b].now
  }

  /** The profile has beaten at operation `l`, at most 14 seconds before operation `m`. */
  predicate BeatBefore(ops: seq<Op>, profile: string, l: int, m: int) {
    && 0 <= l < m < |ops| && Timed(ops[m])
    && ops[l].Beat? && ops[l].profile == profile && ops[m].now <= ops[l].now + 14_000
  }

  /** From operation `i` on the profile beats often enough: a sweep or a claim never comes more
      than 14 seconds after the last beat. */
  ghost predicate BeatsOften(ops: seq<Op>, profile: string, i: nat, k: nat)
    requires i <= k <= |ops|
  {
    forall m :: i <= m < k && (ops[m].Sweep? || ops[m].Claim?) ==> exists l :: i <= l && BeatBefore(ops, profile, l, m)
  }

  /** Nobody unlinks the chat. */
  predicate NeverUnlinked(ops: seq<Op>, conv: string, i: nat, k: nat)
    requires i <= k <= |ops|
  {
    forall m :: i <= m < k && ops[m].Off? ==> ops[m].conv != conv
  }

  /** The heartbeat is not more than a second behind any beat since operation `i`. */
  ghost predicate KeepsUp(ops: seq<Op>, conv: string, profile: string, i: nat, k: nat)
    requires i <= k <= |ops|
  {
    && BindingAt(ops, conv, k).Some?
    && forall l :: i <= l < k && ops[l].Beat? && ops[l].profile == profile ==>
         ops[l].now - BindingAt(ops, conv, k).value.lastBeat < 1_000
  }

  /** What one operation that does not unlink does to a binding that keeps up. */
  lemma OtherOpsLeaveIt(s: State, op: Op, conv: string)
    requires conv in s.bindings && !Timed(op) && !(op.Off? && op.conv == conv)
    ensures conv in Step(s, op).bindings && Step(s, op).bindings[conv] == s.bindings[conv]
  {
  }

  lemma StepKeepsUp(ops: seq<Op>, conv: string, profile: string, epoch: nat, i: nat, k: nat)
    requires i <= k < |ops| && Clock(ops) && KeepsUp(ops, conv, profile, i, k)
    requires BindingAt(ops, conv, k).value.profile == profile && BindingAt(ops, conv, k).value.epoch == epoch
    requires ops[k].Sweep? || ops[k].Claim? ==> exists l :: i <= l && BeatBefore(ops, profile, l, k)
    requires ops[k].Off? ==> ops[k].conv != conv
    ensures KeepsUp(ops, conv, profile, i, k + 1)
    ensures BindingAt(ops, conv, k + 1).value.profile == profile && BindingAt(ops, conv, k + 1).value.epoch == epoch
  {
    hide Step;
    var s, op := After(ops, k), ops[k];
    assert After(ops, k + 1) == Step(s, op);
    if op.Beat? {
      BeatRefreshes(s, op.profile, op.now, conv);
    } else if Timed(op) {
      FreshBindingStays(s, conv, op);
    } else {
      OtherOpsLeaveIt(s, op, conv);
    }
  }

  /** Over every run in which the profile, bound to the chat at operation `i`, beats often enough
      from then on, and nobody unlinks the chat, the tenure lasts. */
  lemma {:induction false} BeatingKeepsTheTenure(ops: seq<Op>, conv: string, profile: string, epoch: nat, i: nat, k: nat)
    requires i <= k <= |ops| && Clock(ops)
    requires BindingAt(ops, conv, i).Some?
    requires BindingAt(ops, conv, i).value.profile == profile && BindingAt(ops, conv, i).value.epoch == epoch
    requires BeatsOften(ops, profile, i, k) && NeverUnlinked(ops, conv, i, k)
    ensures SameTenure(ops, conv, i, k, profile, epoch) && KeepsUp(ops, conv, profile, i, k)
  {
    hide After;
    if k > i {
      BeatingKeepsTheTenure(ops, conv, profile, epoch, i, k - 1);
      StepKeepsUp(ops, conv, profile, epoch, i, k - 1);
    }
  }

  /** And when the profile is silent for 15 seconds, a claim by another one with something
      readable waiting takes the chat, one epoch on. */
  lemma SilenceLosesTheChat(s: State, conv: string, profile: string, now: int)
    requires conv in s.bindings && s.bindings[conv].profile != profile && now - s.bindings[conv].lastBeat >= 15_000
    requires conv in s.files && HasWaiting(s, conv)
    ensures var t := Step(s, Claim(profile, now));
      conv in t.bindings && t.bindings[conv] == Binding(profile, s.bindings[conv].epoch + 1, now)
    ensures conv !in Step(s, Sweep(now)).bindings
  {
    hide Gathered;
  }
}
