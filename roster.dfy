/**
 * The per-entry part of `checkForChanges` (bot.js:123-176): which roster
 * entries are kept, how each is compared with the stored snapshot, and
 * which log and ping it produces.
 */
module Roster {
  import opened Options
  import opened Effects
  import Embeds

  type Username = string

  /** What the snapshot keeps per user (bot.js:134). */
  datatype Member = Member(rankName: string, rankNumber: int, userId: int)

  /** One element of a roster page: `member.user.username`, `member.role.name`, `member.role.rank`, `member.user.userId`. */
  datatype Entry = Entry(username: Username, rankName: string, rankNumber: int, userId: Option<int>)

  /** A group's roster keyed by username. */
  type Snapshot = map<Username, Member>

  /** Where and to whom notifications go, and the threshold for pings. */
  datatype Target = Target(channel: string, minimumRank: int, roleId: string)

  /** `!userId` rejects a missing identity and the falsy id 0. */
  predicate IsValid(e: Entry) {
    e.userId.Some? && e.userId.value != 0
  }

  function Record(e: Entry): Member
    requires IsValid(e)
  {
    Member(e.rankName, e.rankNumber, e.userId.value)
  }

  /** `currentMembers.set` for every valid entry of `es`, in order, starting from `m`. */
  function Absorb(m: Snapshot, es: seq<Entry>): Snapshot
    decreases |es|
  {
    if es == [] then m
    else
      var e := es[|es| - 1];
      var before := Absorb(m, es[..|es| - 1]);
      if IsValid(e) then before[e.username := Record(e)] else before
  }

  /** The snapshot a complete roster produces. */
  function SnapshotOf(es: seq<Entry>): Snapshot {
    Absorb(map[], es)
  }

  const DEMOTION_COLOR: int := 8388736

  function PingIf(t: Target, due: bool): seq<Effect> {
    if due then [Ping(t.channel, t.roleId)] else []
  }

  /** An entry is silent when it is dropped, or known with the same rank number. */
  predicate Unchanged(prev: Snapshot, e: Entry) {
    IsValid(e) ==> e.username in prev && prev[e.username].rankNumber == e.rankNumber
  }

  /** The notifications one roster entry produces against the stored snapshot `prev`. */
  function EntryEvents(t: Target, prev: Snapshot, e: Entry): (r: seq<Effect>)
    ensures r == [] <==> Unchanged(prev, e)
    ensures r != [] ==> r[0].Log? && r[0].channel == t.channel && r[0].player == e.username
    ensures |r| <= 2 && (|r| == 2 ==> r[1] == Ping(t.channel, t.roleId))
  {
    if !IsValid(e) then []
    else if e.username in prev then
      var oldRank := prev[e.username].rankNumber;
      if oldRank == e.rankNumber then []
      else if e.rankNumber > oldRank then
        [Log(t.channel, "Promotion", Embeds.YELLOW, e.username)]
          + PingIf(t, e.rankNumber >= t.minimumRank)
      else
        [Log(t.channel, "Demotion", DEMOTION_COLOR, e.username)]
          + PingIf(t, e.rankNumber <= t.minimumRank && oldRank > t.minimumRank)
    else
      [Log(t.channel, "Member Joined", Embeds.GREEN, e.username)]
        + PingIf(t, e.rankNumber >= t.minimumRank)
  }

  /** The notifications of a sequence of entries, in roster order. */
  function Diff(t: Target, prev: Snapshot, es: seq<Entry>): seq<Effect>
    decreases |es|
  {
    if es == [] then []
    else Diff(t, prev, es[..|es| - 1]) + EntryEvents(t, prev, es[|es| - 1])
  }

  /** A roster's diff holds only logs and pings. */
  lemma {:induction false} DiffOnlyNotifies(t: Target, prev: Snapshot, es: seq<Entry>)
    ensures forall k :: 0 <= k < |Diff(t, prev, es)| ==> IsNotice(Diff(t, prev, es)[k])
    decreases |es|
  {
    if es != [] {
      DiffOnlyNotifies(t, prev, es[..|es| - 1]);
    }
  }

  lemma {:induction false} DiffAppend(t: Target, prev: Snapshot, a: seq<Entry>, b: seq<Entry>)
    ensures Diff(t, prev, a + b) == Diff(t, prev, a) + Diff(t, prev, b)
    decreases |b|
  {
    if b == [] {
      assert a + b == a;
    } else {
      var init, last := b[..|b| - 1], b[|b| - 1];
      assert (a + b)[..|a + b| - 1] == a + init;
      assert (a + b)[|a + b| - 1] == last;
      assert Diff(t, prev, a + b) == Diff(t, prev, a + init) + EntryEvents(t, prev, last);
      DiffAppend(t, prev, a, init);
      ConcatAssoc(Diff(t, prev, a), Diff(t, prev, init), EntryEvents(t, prev, last));
    }
  }

  lemma {:induction false} AbsorbAppend(m: Snapshot, a: seq<Entry>, b: seq<Entry>)
    ensures Absorb(m, a + b) == Absorb(Absorb(m, a), b)
    decreases |b|
  {
    if b == [] {
      assert a + b == a;
    } else {
      var init := b[..|b| - 1];
      assert (a + b)[..|a + b| - 1] == a + init;
      assert (a + b)[|a + b| - 1] == b[|b| - 1];
      AbsorbAppend(m, a, init);
    }
  }

  /** Notifying one more entry extends the diff by that entry's notifications. */
  lemma DiffStep(t: Target, prev: Snapshot, sent: seq<Effect>, done: seq<Entry>, e: Entry)
    ensures sent + Diff(t, prev, done) + EntryEvents(t, prev, e) == sent + Diff(t, prev, done + [e])
  {
  }

  /** The notifications of a roster are those before entry `k`, then entry `k`'s own, then those after it. */
  lemma DiffAt(t: Target, prev: Snapshot, es: seq<Entry>, k: nat)
    requires k < |es|
    ensures Diff(t, prev, es) == Diff(t, prev, es[..k]) + EntryEvents(t, prev, es[k]) + Diff(t, prev, es[k + 1..])
  {
    var head := es[..k + 1];
    assert es == head + es[k + 1..];
    assert head[..k] == es[..k];
    DiffAppend(t, prev, head, es[k + 1..]);
  }

  /** A valid entry unknown to the snapshot yields one green "Member Joined" log, pinged iff its rank reaches the threshold. */
  lemma JoinedAt(t: Target, prev: Snapshot, es: seq<Entry>, k: nat)
    requires k < |es| && IsValid(es[k]) && es[k].username !in prev
    ensures Diff(t, prev, es) ==
      Diff(t, prev, es[..k])
      + [Log(t.channel, "Member Joined", 0x00FF00, es[k].username)]
      + (if es[k].rankNumber >= t.minimumRank then [Ping(t.channel, t.roleId)] else [])
      + Diff(t, prev, es[k + 1..])
  {
    DiffAt(t, prev, es, k);
  }

  /** A rank increase yields one yellow "Promotion" log, pinged iff the new rank reaches the threshold, whatever the old rank. */
  lemma PromotedAt(t: Target, prev: Snapshot, es: seq<Entry>, k: nat)
    requires k < |es| && IsValid(es[k]) && es[k].username in prev
    requires es[k].rankNumber > prev[es[k].username].rankNumber
    ensures Diff(t, prev, es) ==
      Diff(t, prev, es[..k])
      + [Log(t.channel, "Promotion", 0xFFFF00, es[k].username)]
      + (if es[k].rankNumber >= t.minimumRank then [Ping(t.channel, t.roleId)] else [])
      + Diff(t, prev, es[k + 1..])
  {
    DiffAt(t, prev, es, k);
  }

  /**
   * A rank decrease yields one "Demotion" log in colour 8388736, pinged iff
   * the member crosses down through the threshold: new rank at or below it
   * and old rank above it.
   */
  lemma DemotedAt(t: Target, prev: Snapshot, es: seq<Entry>, k: nat)
    requires k < |es| && IsValid(es[k]) && es[k].username in prev
    requires es[k].rankNumber < prev[es[k].username].rankNumber
    ensures Diff(t, prev, es) ==
      Diff(t, prev, es[..k])
      + [Log(t.channel, "Demotion", 8388736, es[k].username)]
      + (if es[k].rankNumber <= t.minimumRank && prev[es[k].username].rankNumber > t.minimumRank
         then [Ping(t.channel, t.roleId)] else [])
      + Diff(t, prev, es[k + 1..])
  {
    DiffAt(t, prev, es, k);
  }

  /** A dropped entry, or a known one with the same rank number (even under a new rank name), contributes nothing. */
  lemma SilentAt(t: Target, prev: Snapshot, es: seq<Entry>, k: nat)
    requires k < |es| && Unchanged(prev, es[k])
    ensures Diff(t, prev, es) == Diff(t, prev, es[..k]) + Diff(t, prev, es[k + 1..])
  {
    DiffAt(t, prev, es, k);
  }

  /** A roster produces no notification at all iff every entry in it is silent. */
  lemma {:induction false} DiffEmptyIffUnchanged(t: Target, prev: Snapshot, es: seq<Entry>)
    ensures Diff(t, prev, es) == [] <==> forall i :: 0 <= i < |es| ==> Unchanged(prev, es[i])
    decreases |es|
  {
    if es != [] {
      var init, last := es[..|es| - 1], es[|es| - 1];
      DiffEmptyIffUnchanged(t, prev, init);
      assert forall i :: 0 <= i < |init| ==> init[i] == es[i];
      assert Diff(t, prev, es) == [] <==> Diff(t, prev, init) == [] && EntryEvents(t, prev, last) == [];
    }
  }

  /**
   * Worked cases with threshold 5: a promotion to the threshold pings and a
   * join below it does not; a demotion from 10 to 3 crosses the threshold
   * and pings; a demotion from 2 to 1 stays below it and does not.
   */
  lemma ThresholdScenarios()
    ensures var t := Target("log-channel", 5, "officers");
            && Diff(t, map["alice" := Member("Recruit", 1, 11)],
                    [Entry("alice", "Captain", 5, Some(11)), Entry("bob", "Recruit", 1, Some(12))])
               == [Log("log-channel", "Promotion", 0xFFFF00, "alice"), Ping("log-channel", "officers"),
                   Log("log-channel", "Member Joined", 0x00FF00, "bob")]
            && Diff(t, map["carol" := Member("General", 10, 13)], [Entry("carol", "Sergeant", 3, Some(13))])
               == [Log("log-channel", "Demotion", 8388736, "carol"), Ping("log-channel", "officers")]
            && Diff(t, map["dave" := Member("Corporal", 2, 14)], [Entry("dave", "Private", 1, Some(14))])
               == [Log("log-channel", "Demotion", 8388736, "dave")]
  {
  }

  /** Every log names a user with a valid entry in the roster: users who left produce nothing. */
  lemma {:induction false} LogsNameRosterMembers(t: Target, prev: Snapshot, es: seq<Entry>)
    ensures forall x :: x in Diff(t, prev, es) && x.Log? ==>
              exists i :: 0 <= i < |es| && IsValid(es[i]) && es[i].username == x.player
    decreases |es|
  {
    if es != [] {
      var n := |es| - 1;
      var init := es[..n];
      LogsNameRosterMembers(t, prev, init);
      forall x | x in Diff(t, prev, es) && x.Log?
        ensures exists i :: 0 <= i < |es| && IsValid(es[i]) && es[i].username == x.player
      {
        if x in Diff(t, prev, init) {
          var i :| 0 <= i < |init| && IsValid(init[i]) && init[i].username == x.player;
          assert es[i] == init[i];
        } else {
          assert x in EntryEvents(t, prev, es[n]);
          assert IsValid(es[n]) && es[n].username == x.player;
        }
      }
    }
  }

  /** No later valid entry has the same username as entry `i`. */
  predicate LastValid(es: seq<Entry>, i: nat)
    requires i < |es|
  {
    forall j :: i < j < |es| && IsValid(es[j]) ==> es[j].username != es[i].username
  }

  /**
   * The snapshot of a roster holds exactly the usernames of its valid
   * entries, each with the record of its last valid entry.
   */
  lemma {:induction false} SnapshotContents(es: seq<Entry>)
    ensures forall u :: u in SnapshotOf(es) <==> exists i :: 0 <= i < |es| && IsValid(es[i]) && es[i].username == u
    ensures forall i :: 0 <= i < |es| && IsValid(es[i]) && LastValid(es, i) ==> SnapshotOf(es)[es[i].username] == Record(es[i])
    decreases |es|
  {
    if es != [] {
      var n := |es| - 1;
      var init := es[..n];
      SnapshotContents(init);
      assert forall i :: 0 <= i < n ==> init[i] == es[i];
      forall u ensures u in SnapshotOf(es) <==> exists i :: 0 <= i < |es| && IsValid(es[i]) && es[i].username == u {
        if u in SnapshotOf(init) {
          var i :| 0 <= i < |init| && IsValid(init[i]) && init[i].username == u;
          assert es[i] == init[i];
        }
      }
      forall i | 0 <= i < |es| && IsValid(es[i]) && LastValid(es, i)
        ensures SnapshotOf(es)[es[i].username] == Record(es[i])
      {
        if i < n {
          assert init[i] == es[i];
          assert LastValid(init, i);
        }
      }
    }
  }

  /** Every valid entry with the same username carries the same rank number. */
  predicate ConsistentRanks(es: seq<Entry>) {
    forall i, j ::
      0 <= i < |es| && 0 <= j < |es| && IsValid(es[i]) && IsValid(es[j]) && es[i].username == es[j].username
      ==> es[i].rankNumber == es[j].rankNumber
  }

  lemma {:induction false} SnapshotKeepsRanks(es: seq<Entry>)
    requires ConsistentRanks(es)
    ensures forall i :: 0 <= i < |es| ==> Unchanged(SnapshotOf(es), es[i])
    decreases |es|
  {
    if es != [] {
      var n := |es| - 1;
      var init := es[..n];
      assert forall i :: 0 <= i < n ==> init[i] == es[i];
      SnapshotKeepsRanks(init);
    }
  }

  /**
   * Comparing a roster with its own snapshot yields nothing, provided no
   * username appears twice with different rank numbers.
   */
  lemma RerunIsSilent(t: Target, es: seq<Entry>)
    requires ConsistentRanks(es)
    ensures Diff(t, SnapshotOf(es), es) == []
  {
    SnapshotKeepsRanks(es);
    DiffEmptyIffUnchanged(t, SnapshotOf(es), es);
  }

  /**
   * Without that proviso the rerun is not silent: the snapshot keeps the
   * later rank 5, so the earlier duplicate at rank 3 reads as a demotion,
   * pinged iff the threshold lies in [3, 5).
   */
  lemma DuplicateNameBreaksRerun(t: Target)
    ensures var es := [Entry("ann", "Member", 3, Some(1)), Entry("ann", "Officer", 5, Some(1))];
            Diff(t, SnapshotOf(es), es)
            == [Log(t.channel, "Demotion", 8388736, "ann")]
               + (if 3 <= t.minimumRank < 5 then [Ping(t.channel, t.roleId)] else [])
  {
  }
}
