/**
 * One monitoring cycle of `checkForChanges` (bot.js:102-188): the
 * configuration guard, the paginated walk over the roster that notifies
 * while it reads, and the snapshot commit that happens only when every page
 * arrived.
 */
module Monitor {
  import opened Options
  import opened Effects
  import opened Roster
  import Embeds

  type GroupId = int

  /** The answer to one roster page request: entries and `nextPageCursor`, or a rejected request. */
  datatype Response = Page(entries: seq<Entry>, nextPageCursor: Option<string>) | RequestFailed

  /** A group's `MinimumRank` and `roleid` settings. */
  datatype GroupData = GroupData(minimumRank: int, roleId: string)

  /** Missing group data, a `MinimumRank` of 0 or an empty `roleid` skip the cycle. */
  predicate Configured(data: Option<GroupData>) {
    data.Some? && data.value.minimumRank != 0 && data.value.roleId != ""
  }

  function TargetOf(channel: string, data: Option<GroupData>): Target
    requires data.Some?
  {
    Target(channel, data.value.minimumRank, data.value.roleId)
  }

  /** `!!cursor`: another page follows only for a present, non-empty cursor. */
  predicate HasMore(cursor: Option<string>) {
    cursor.Some? && cursor.value != ""
  }

  /** The stored snapshot of group `g`, empty on the first cycle. */
  function PrevOf(state: map<GroupId, Snapshot>, g: GroupId): Snapshot {
    if g in state then state[g] else map[]
  }

  /** The entries of several pages, one page after the other. */
  function Flatten(received: seq<seq<Entry>>): seq<Entry>
    decreases |received|
  {
    if received == [] then [] else received[0] + Flatten(received[1..])
  }

  /**
   * The roster as a fetch-everything-first reader would see it: the entries
   * of every page received, those pages one by one, the cursors requested,
   * and whether the last page was reached. A request beyond the given
   * responses fails.
   */
  datatype Fetch = Fetch(entries: seq<Entry>, received: seq<seq<Entry>>, cursors: seq<Option<string>>, complete: bool)

  function FetchFrom(pages: seq<Response>, i: nat, cursor: Option<string>): (f: Fetch)
    ensures |f.cursors| >= 1 && f.cursors[0] == cursor
    ensures forall k :: 1 <= k < |f.cursors| ==> HasMore(f.cursors[k])
    ensures |f.received| == if f.complete then |f.cursors| else |f.cursors| - 1
    ensures f.entries == Flatten(f.received)
    decreases |pages| - i
  {
    if i >= |pages| || pages[i].RequestFailed? then Fetch([], [], [cursor], false)
    else
      var p := pages[i];
      if HasMore(p.nextPageCursor) then
        var rest := FetchFrom(pages, i + 1, p.nextPageCursor);
        assert ([p.entries] + rest.received)[1..] == rest.received;
        Fetch(p.entries + rest.entries, [p.entries] + rest.received, [cursor] + rest.cursors, rest.complete)
      else
        assert Flatten([p.entries]) == p.entries + [] by {
          assert [p.entries][1..] == [];
        }
        Fetch(p.entries, [p.entries], [cursor], true)
  }

  /** Page `k` received is the entries of the `k`-th response, which was a page. */
  lemma {:induction false} FetchReceivesResponses(pages: seq<Response>, i: nat, cursor: Option<string>, k: nat)
    requires k < |FetchFrom(pages, i, cursor).received|
    ensures i + k < |pages| && pages[i + k].Page?
    ensures FetchFrom(pages, i, cursor).received[k] == pages[i + k].entries
    decreases k
  {
    var p := pages[i];
    if k > 0 {
      FetchReceivesResponses(pages, i + 1, p.nextPageCursor, k - 1);
    }
  }

  /** Every request after the first carries the `nextPageCursor` of the page before it. */
  lemma {:induction false} FetchFollowsCursors(pages: seq<Response>, i: nat, cursor: Option<string>, k: nat)
    requires k + 1 < |FetchFrom(pages, i, cursor).cursors|
    ensures i + k < |pages| && pages[i + k].Page?
    ensures FetchFrom(pages, i, cursor).cursors[k + 1] == pages[i + k].nextPageCursor
    decreases k
  {
    var p := pages[i];
    if k > 0 {
      FetchFollowsCursors(pages, i + 1, p.nextPageCursor, k - 1);
    }
  }

  /**
   * The fetch stops at the response to its last request: it is complete
   * exactly when that response is a page without a usable cursor, and
   * incomplete exactly when that request failed or had no response.
   */
  lemma {:induction false} FetchStopsAtLastPage(pages: seq<Response>, i: nat, cursor: Option<string>)
    ensures var f := FetchFrom(pages, i, cursor); var n := |f.cursors| - 1;
      f.complete <==> i + n < |pages| && pages[i + n].Page? && !HasMore(pages[i + n].nextPageCursor)
    ensures var f := FetchFrom(pages, i, cursor); var n := |f.cursors| - 1;
      !f.complete <==> i + n >= |pages| || pages[i + n].RequestFailed?
    decreases |pages| - i
  {
    if i < |pages| && pages[i].Page? && HasMore(pages[i].nextPageCursor) {
      FetchStopsAtLastPage(pages, i + 1, pages[i].nextPageCursor);
    }
  }

  /**
   * The trace of a fetch that requested `cursors` and received the pages
   * `received`, notifying page by page: request k, then page k's
   * notifications, then a pause unless request k was the last.
   */
  function PageByPage(t: Target, prev: Snapshot, cursors: seq<Option<string>>, received: seq<seq<Entry>>): seq<Effect>
    decreases |cursors|
  {
    if cursors == [] then []
    else
      [Request(cursors[0])]
      + (if received != [] then Diff(t, prev, received[0]) else [])
      + (if |cursors| > 1 then [Sleep] else [])
      + PageByPage(t, prev, cursors[1..], if received != [] then received[1..] else [])
  }

  /** The whole roster, starting with the cursorless request. */
  function FetchRoster(pages: seq<Response>): Fetch {
    FetchFrom(pages, 0, None)
  }

  /** Where the streaming walk ends: everything it did, the members it collected, and whether it finished. */
  datatype Run = Run(trace: seq<Effect>, members: Snapshot, complete: bool)

  /**
   * The `while (hasMorePages)` loop from page `i` on, with the cursor to
   * request, the members collected so far and the effects so far.
   */
  function Walk(t: Target, prev: Snapshot, pages: seq<Response>, i: nat, cursor: Option<string>,
                current: Snapshot, trace: seq<Effect>): Run
    decreases |pages| - i
  {
    var requested := trace + [Request(cursor)];
    if i >= |pages| || pages[i].RequestFailed? then Run(requested, current, false)
    else
      var p := pages[i];
      var notified := requested + Diff(t, prev, p.entries);
      var collected := Absorb(current, p.entries);
      if HasMore(p.nextPageCursor) then
        Walk(t, prev, pages, i + 1, p.nextPageCursor, collected, notified + [Sleep])
      else Run(notified, collected, true)
  }

  /** The effects of one cycle and the snapshot store after it. */
  datatype Outcome = Outcome(trace: seq<Effect>, state: map<GroupId, Snapshot>)

  function Cycle(state: map<GroupId, Snapshot>, g: GroupId, channel: string, data: Option<GroupData>,
                 pages: seq<Response>): (o: Outcome)
    ensures !Configured(data) ==> o.trace == [] && o.state == state
    ensures o.state == state || (g in o.state && o.state == state[g := o.state[g]])
  {
    if !Configured(data) then Outcome([], state)
    else
      var run := Walk(TargetOf(channel, data), PrevOf(state, g), pages, 0, None, map[], []);
      Outcome(run.trace, if run.complete then state[g := run.members] else state)
  }

  /** One turn of the walk over a page that arrived. */
  lemma WalkStep(t: Target, prev: Snapshot, pages: seq<Response>, i: nat, cursor: Option<string>,
                 current: Snapshot, trace: seq<Effect>)
    requires i < |pages| && pages[i].Page?
    ensures var p := pages[i];
            var notified := trace + [Request(cursor)] + Diff(t, prev, p.entries);
            Walk(t, prev, pages, i, cursor, current, trace) ==
              if HasMore(p.nextPageCursor)
              then Walk(t, prev, pages, i + 1, p.nextPageCursor, Absorb(current, p.entries), notified + [Sleep])
              else Run(notified, Absorb(current, p.entries), true)
  {
  }

  /** Effects that happened before the walk stay in front of what it does. */
  lemma {:induction false} WalkKeepsEarlierEffects(t: Target, prev: Snapshot, pages: seq<Response>, i: nat,
                                                   cursor: Option<string>, current: Snapshot,
                                                   before: seq<Effect>, trace: seq<Effect>)
    ensures var w := Walk(t, prev, pages, i, cursor, current, trace);
            Walk(t, prev, pages, i, cursor, current, before + trace) == Run(before + w.trace, w.members, w.complete)
    decreases |pages| - i
  {
    assert before + trace + [Request(cursor)] == before + (trace + [Request(cursor)]);
    if i < |pages| && pages[i].Page? {
      var p := pages[i];
      var d := Diff(t, prev, p.entries);
      WalkStep(t, prev, pages, i, cursor, current, trace);
      WalkStep(t, prev, pages, i, cursor, current, before + trace);
      assert before + trace + [Request(cursor)] + d == before + (trace + [Request(cursor)] + d);
      if HasMore(p.nextPageCursor) {
        assert before + trace + [Request(cursor)] + d + [Sleep] == before + (trace + [Request(cursor)] + d + [Sleep]);
        WalkKeepsEarlierEffects(t, prev, pages, i + 1, p.nextPageCursor, Absorb(current, p.entries),
                                before, trace + [Request(cursor)] + d + [Sleep]);
      }
    }
  }

  /** The members a walk collects, and whether it finishes, are those of the fetched roster. */
  lemma {:induction false} WalkCollectsFetchedRoster(t: Target, prev: Snapshot, pages: seq<Response>, i: nat,
                                                     cursor: Option<string>, current: Snapshot, trace: seq<Effect>)
    ensures var w := Walk(t, prev, pages, i, cursor, current, trace);
            var f := FetchFrom(pages, i, cursor);
            w.members == Absorb(current, f.entries) && w.complete == f.complete
    decreases |pages| - i
  {
    if i < |pages| && pages[i].Page? {
      var p := pages[i];
      WalkStep(t, prev, pages, i, cursor, current, trace);
      if HasMore(p.nextPageCursor) {
        var rest := FetchFrom(pages, i + 1, p.nextPageCursor);
        var notified := trace + [Request(cursor)] + Diff(t, prev, p.entries);
        WalkCollectsFetchedRoster(t, prev, pages, i + 1, p.nextPageCursor, Absorb(current, p.entries), notified + [Sleep]);
        AbsorbAppend(current, p.entries, rest.entries);
      } else {
        assert p.entries + [] == p.entries;
      }
    }
  }

  /**
   * Notifying page by page sends the same notifications as diffing the
   * fetched roster once it is complete, and, when a page fails, those of the
   * entries received before it.
   */
  lemma {:induction false} WalkNotifiesFetchedDiff(t: Target, prev: Snapshot, pages: seq<Response>, i: nat,
                                                   cursor: Option<string>, current: Snapshot, trace: seq<Effect>)
    ensures Notices(Walk(t, prev, pages, i, cursor, current, trace).trace)
            == Notices(trace) + Diff(t, prev, FetchFrom(pages, i, cursor).entries)
    decreases |pages| - i
  {
    if i < |pages| && pages[i].Page? {
      var p := pages[i];
      var d := Diff(t, prev, p.entries);
      WalkStep(t, prev, pages, i, cursor, current, trace);
      if HasMore(p.nextPageCursor) {
        var rest := FetchFrom(pages, i + 1, p.nextPageCursor);
        var slept := trace + [Request(cursor)] + d + [Sleep];
        DiffOnlyNotifies(t, prev, p.entries);
        PageNotices(trace, cursor, d, [Sleep]);
        WalkNotifiesFetchedDiff(t, prev, pages, i + 1, p.nextPageCursor, Absorb(current, p.entries), slept);
        DiffAppend(t, prev, p.entries, rest.entries);
        ConcatAssoc(Notices(trace), d, Diff(t, prev, rest.entries));
      } else {
        DiffOnlyNotifies(t, prev, p.entries);
        PageNotices(trace, cursor, d, []);
        assert trace + [Request(cursor)] + d + [] == trace + [Request(cursor)] + d;
        assert p.entries + [] == p.entries;
      }
    } else {
      PageNotices(trace, cursor, [], []);
      assert trace + [Request(cursor)] + [] + [] == trace + [Request(cursor)];
    }
  }

  /**
   * The walk's traffic is the paging schedule of the cursors it requested:
   * one pause between two requests and none after the last.
   */
  lemma {:induction false} WalkFollowsPagingSchedule(t: Target, prev: Snapshot, pages: seq<Response>, i: nat,
                                                     cursor: Option<string>, current: Snapshot, trace: seq<Effect>)
    ensures Traffic(Walk(t, prev, pages, i, cursor, current, trace).trace)
            == Traffic(trace) + PagingSchedule(FetchFrom(pages, i, cursor).cursors)
    decreases |pages| - i
  {
    if i < |pages| && pages[i].Page? {
      var p := pages[i];
      var d := Diff(t, prev, p.entries);
      WalkStep(t, prev, pages, i, cursor, current, trace);
      if HasMore(p.nextPageCursor) {
        var rest := FetchFrom(pages, i + 1, p.nextPageCursor);
        var slept := trace + [Request(cursor)] + d + [Sleep];
        DiffOnlyNotifies(t, prev, p.entries);
        PageTraffic(trace, cursor, d, [Sleep]);
        WalkFollowsPagingSchedule(t, prev, pages, i + 1, p.nextPageCursor, Absorb(current, p.entries), slept);
        ScheduleCons(cursor, rest.cursors);
        ConcatAssoc(Traffic(trace), [Request(cursor), Sleep], PagingSchedule(rest.cursors));
        assert Traffic(trace) + [Request(cursor)] + [Sleep] == Traffic(trace) + [Request(cursor), Sleep];
      } else {
        DiffOnlyNotifies(t, prev, p.entries);
        PageTraffic(trace, cursor, d, []);
        assert trace + [Request(cursor)] + d + [] == trace + [Request(cursor)] + d;
      }
    } else {
      PageTraffic(trace, cursor, [], []);
      assert trace + [Request(cursor)] + [] + [] == trace + [Request(cursor)];
    }
  }

  /**
   * The walk sends each page's notifications right after that page's
   * request and before the pause that precedes the next request.
   */
  lemma {:induction false} WalkIsPageByPage(t: Target, prev: Snapshot, pages: seq<Response>, i: nat,
                                            cursor: Option<string>, current: Snapshot, trace: seq<Effect>)
    ensures var f := FetchFrom(pages, i, cursor);
            Walk(t, prev, pages, i, cursor, current, trace).trace == trace + PageByPage(t, prev, f.cursors, f.received)
    decreases |pages| - i
  {
    var f := FetchFrom(pages, i, cursor);
    if i < |pages| && pages[i].Page? {
      var p := pages[i];
      var d := Diff(t, prev, p.entries);
      WalkStep(t, prev, pages, i, cursor, current, trace);
      if HasMore(p.nextPageCursor) {
        var rest := FetchFrom(pages, i + 1, p.nextPageCursor);
        WalkIsPageByPage(t, prev, pages, i + 1, p.nextPageCursor, Absorb(current, p.entries),
                         trace + [Request(cursor)] + d + [Sleep]);
        assert f.cursors[1..] == rest.cursors && f.received[1..] == rest.received;
        assert PageByPage(t, prev, f.cursors, f.received)
               == [Request(cursor)] + d + [Sleep] + PageByPage(t, prev, rest.cursors, rest.received);
        ConcatAssoc4(trace, [Request(cursor)], d, [Sleep], PageByPage(t, prev, rest.cursors, rest.received));
      } else {
        assert PageByPage(t, prev, f.cursors, f.received) == [Request(cursor)] + d + [] + [];
        ConcatAssoc4(trace, [Request(cursor)], d, [], []);
      }
    } else {
      assert PageByPage(t, prev, f.cursors, f.received) == [Request(cursor)] + [] + [] + [];
      ConcatAssoc4(trace, [Request(cursor)], [], [], []);
    }
  }

  /**
   * What a configured cycle sends, in order: for each request, the request,
   * the notifications of the page it returned (if any), then a pause unless
   * it was the last request.
   */
  lemma CycleSendsPageByPage(state: map<GroupId, Snapshot>, g: GroupId, channel: string,
                             data: Option<GroupData>, pages: seq<Response>)
    requires Configured(data)
    ensures var f := FetchRoster(pages);
            Cycle(state, g, channel, data, pages).trace
            == PageByPage(TargetOf(channel, data), PrevOf(state, g), f.cursors, f.received)
  {
    WalkIsPageByPage(TargetOf(channel, data), PrevOf(state, g), pages, 0, None, map[], []);
    assert [] + PageByPage(TargetOf(channel, data), PrevOf(state, g), FetchRoster(pages).cursors, FetchRoster(pages).received)
           == PageByPage(TargetOf(channel, data), PrevOf(state, g), FetchRoster(pages).cursors, FetchRoster(pages).received);
  }

  /**
   * A configured cycle notifies the diff of every entry received, in roster
   * order, even when a later page fails; it replaces group `g`'s snapshot by
   * the received roster's snapshot only when the last page was reached, and
   * leaves the store as it was otherwise.
   */
  lemma CycleIsFetchThenDiff(state: map<GroupId, Snapshot>, g: GroupId, channel: string,
                             data: Option<GroupData>, pages: seq<Response>)
    requires Configured(data)
    ensures var o := Cycle(state, g, channel, data, pages);
            var f := FetchRoster(pages);
            && Notices(o.trace) == Diff(TargetOf(channel, data), PrevOf(state, g), f.entries)
            && Traffic(o.trace) == PagingSchedule(f.cursors)
            && o.state == if f.complete then state[g := SnapshotOf(f.entries)] else state
  {
    var t, prev := TargetOf(channel, data), PrevOf(state, g);
    WalkCollectsFetchedRoster(t, prev, pages, 0, None, map[], []);
    WalkNotifiesFetchedDiff(t, prev, pages, 0, None, map[], []);
    WalkFollowsPagingSchedule(t, prev, pages, 0, None, map[], []);
  }

  /**
   * After a complete cycle, a second cycle over the same responses sends no
   * notification, makes the same requests and pauses, and leaves the store
   * as it is, provided no username appears twice with different ranks.
   */
  lemma SecondCycleIsSilent(state: map<GroupId, Snapshot>, g: GroupId, channel: string,
                            data: Option<GroupData>, pages: seq<Response>)
    requires FetchRoster(pages).complete && ConsistentRanks(FetchRoster(pages).entries)
    ensures var first := Cycle(state, g, channel, data, pages);
            var second := Cycle(first.state, g, channel, data, pages);
            && Notices(second.trace) == []
            && Traffic(second.trace) == Traffic(first.trace)
            && second.state == first.state
  {
    if Configured(data) {
      var f := FetchRoster(pages);
      var t := TargetOf(channel, data);
      var first := Cycle(state, g, channel, data, pages);
      var second := Cycle(first.state, g, channel, data, pages);
      CycleIsFetchThenDiff(state, g, channel, data, pages);
      assert first.state == state[g := SnapshotOf(f.entries)];
      CycleIsFetchThenDiff(first.state, g, channel, data, pages);
      assert PrevOf(first.state, g) == SnapshotOf(f.entries);
      RerunIsSilent(t, f.entries);
      assert Notices(second.trace) == Diff(t, SnapshotOf(f.entries), f.entries);
      assert second.state == first.state[g := SnapshotOf(f.entries)];
    }
  }

  /**
   * The bot's state: the in-memory `previousMembers` store and everything it
   * has done so far, as one sequence of effects.
   */
  class Bot {
    var previousMembers: map<GroupId, Snapshot>
    var effects: seq<Effect>

    constructor ()
      ensures previousMembers == map[] && effects == []
    {
      previousMembers := map[];
      effects := [];
    }

    /** Sends one embed; its colour is chosen as `logToDiscord` does. */
    method LogToDiscord(channel: string, title: string, color: Embeds.ColorArg, player: Username)
      modifies this`effects
      ensures effects == old(effects) + [Log(channel, title, Embeds.EmbedColor(color), player)]
    {
      effects := effects + [Log(channel, title, Embeds.EmbedColor(color), player)];
    }

    /** Mentions the role in the channel. */
    method SendRolePing(channel: string, roleId: string)
      modifies this`effects
      ensures effects == old(effects) + [Ping(channel, roleId)]
    {
      effects := effects + [Ping(channel, roleId)];
    }

    /**
     * The `forEach` callback for one roster entry: drop it without an id,
     * otherwise record it and notify as it compares with the stored snapshot.
     */
    method ProcessMember(groupId: GroupId, discordChannelId: string, minimumRank: int, roleId: string,
                         member: Entry, currentMembers: Snapshot) returns (collected: Snapshot)
      modifies this`effects
      ensures collected == Absorb(currentMembers, [member])
      ensures effects == old(effects)
                         + EntryEvents(Target(discordChannelId, minimumRank, roleId), PrevOf(previousMembers, groupId), member)
    {
      assert [member][..0] == [];
      collected := currentMembers;
      if member.userId.None? || member.userId.value == 0 {
        return;
      }
      var username, rankNumber := member.username, member.rankNumber;
      collected := collected[username := Member(member.rankName, rankNumber, member.userId.value)];
      if groupId in previousMembers && username in previousMembers[groupId] {
        var previousMember := previousMembers[groupId][username];
        if previousMember.rankNumber != rankNumber {
          if rankNumber > previousMember.rankNumber {
            LogToDiscord(discordChannelId, "Promotion", Embeds.Named("YELLOW"), username);
            if rankNumber >= minimumRank {
              SendRolePing(discordChannelId, roleId);
            }
          } else if rankNumber < previousMember.rankNumber {
            LogToDiscord(discordChannelId, "Demotion", Embeds.Code(DEMOTION_COLOR), username);
            if rankNumber <= minimumRank && previousMember.rankNumber > minimumRank {
              SendRolePing(discordChannelId, roleId);
            }
          }
        }
      } else {
        LogToDiscord(discordChannelId, "Member Joined", Embeds.Named("GREEN"), username);
        if rankNumber >= minimumRank {
          SendRolePing(discordChannelId, roleId);
        }
      }
    }

    /** `members.forEach(...)` over one page: every entry in order through the callback. */
    method ProcessPage(groupId: GroupId, discordChannelId: string, minimumRank: int, roleId: string,
                       members: seq<Entry>, currentMembers: Snapshot) returns (collected: Snapshot)
      modifies this`effects
      ensures collected == Absorb(currentMembers, members)
      ensures effects == old(effects)
                         + Diff(Target(discordChannelId, minimumRank, roleId), PrevOf(previousMembers, groupId), members)
    {
      ghost var t := Target(discordChannelId, minimumRank, roleId);
      ghost var prev := PrevOf(previousMembers, groupId);
      collected := currentMembers;
      var j := 0;
      while j < |members|
        invariant 0 <= j <= |members|
        invariant collected == Absorb(currentMembers, members[..j])
        invariant effects == old(effects) + Diff(t, prev, members[..j])
      {
        ghost var done := members[..j];
        assert members[..j + 1] == done + [members[j]];
        AbsorbAppend(currentMembers, done, [members[j]]);
        DiffStep(t, prev, old(effects), done, members[j]);
        collected := ProcessMember(groupId, discordChannelId, minimumRank, roleId, members[j], collected);
        j := j + 1;
      }
      assert members[..|members|] == members;
    }

    /**
     * Runs one cycle for `groupId` against the page responses `responses`,
     * the i-th of which answers the i-th request.
     */
    method CheckForChanges(groupId: GroupId, discordChannelId: string, groupData: Option<GroupData>,
                           responses: seq<Response>)
      modifies this
      ensures var o := Cycle(old(previousMembers), groupId, discordChannelId, groupData, responses);
              effects == old(effects) + o.trace && previousMembers == o.state
    {
      if groupData.None? {
        return;
      }
      var minimumRank, roleId := groupData.value.minimumRank, groupData.value.roleId;
      if minimumRank == 0 || roleId == "" {
        return;
      }
      ghost var t := TargetOf(discordChannelId, groupData);
      ghost var prev := PrevOf(previousMembers, groupId);
      ghost var goal := Walk(t, prev, responses, 0, None, map[], effects);
      WalkKeepsEarlierEffects(t, prev, responses, 0, None, map[], effects, []);
      assert effects + [] == effects;
      var currentMembers: Snapshot := map[];
      var cursor: Option<string> := None;
      var hasMorePages := true;
      var i := 0;
      while hasMorePages
        invariant i <= |responses|
        invariant previousMembers == old(previousMembers)
        invariant hasMorePages ==> Walk(t, prev, responses, i, cursor, currentMembers, effects) == goal
        invariant !hasMorePages ==> goal == Run(effects, currentMembers, true)
        decreases |responses| - i
      {
        ghost var before := effects;
        effects := effects + [Request(cursor)];
        if i >= |responses| || responses[i].RequestFailed? {
          // the rejected request is caught at the end; nothing is committed
          return;
        }
        WalkStep(t, prev, responses, i, cursor, currentMembers, before);
        currentMembers := ProcessPage(groupId, discordChannelId, minimumRank, roleId, responses[i].entries, currentMembers);
        cursor := responses[i].nextPageCursor;
        hasMorePages := HasMore(cursor);
        if hasMorePages {
          effects := effects + [Sleep];
        }
        i := i + 1;
      }
      previousMembers := previousMembers[groupId := currentMembers];
    }
  }
}
