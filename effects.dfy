/**
 * What one monitoring cycle does to the outside world, in order: roster page
 * requests, pacing pauses, log embeds and role pings.
 */
module Effects {
  import opened Options

  datatype Effect =
    | Request(cursor: Option<string>)                              // one roster page request; None is the first, cursorless one
    | Sleep                                                        // the pause between two page requests
    | Log(channel: string, title: string, color: int, player: string) // an embed sent through logToDiscord
    | Ping(channel: string, roleId: string)                        // a role mention sent through sendRolePing

  /** Notifications are what the chat channel sees; the rest is traffic with the roster API. */
  predicate IsNotice(x: Effect) {
    x.Log? || x.Ping?
  }

  /** The effects of `s` whose notice-ness is `notice`, in their order. */
  function Keep(s: seq<Effect>, notice: bool): seq<Effect>
    decreases |s|
  {
    if s == [] then []
    else (if IsNotice(s[0]) == notice then [s[0]] else []) + Keep(s[1..], notice)
  }

  function Notices(s: seq<Effect>): seq<Effect> {
    Keep(s, true)
  }

  function Traffic(s: seq<Effect>): seq<Effect> {
    Keep(s, false)
  }

  lemma {:induction false} KeepAppend(a: seq<Effect>, b: seq<Effect>, notice: bool)
    ensures Keep(a + b, notice) == Keep(a, notice) + Keep(b, notice)
    decreases |a|
  {
    if a == [] {
      assert a + b == b;
    } else {
      assert (a + b)[0] == a[0];
      assert (a + b)[1..] == a[1..] + b;
      KeepAppend(a[1..], b, notice);
    }
  }

  /** A sequence made only of notifications is its own notice part and has no traffic. */
  lemma {:induction false} KeepAllNotices(s: seq<Effect>)
    requires forall k :: 0 <= k < |s| ==> IsNotice(s[k])
    ensures Notices(s) == s && Traffic(s) == []
    decreases |s|
  {
    if s != [] {
      KeepAllNotices(s[1..]);
    }
  }

  lemma ConcatAssoc(a: seq<Effect>, b: seq<Effect>, c: seq<Effect>)
    ensures a + b + c == a + (b + c)
  {
  }

  lemma ConcatAssoc4(a: seq<Effect>, b: seq<Effect>, c: seq<Effect>, d: seq<Effect>, e: seq<Effect>)
    ensures a + b + c + d + e == a + (b + c + d + e)
  {
  }

  /**
   * The notifications of one page: a request, the page's notifications `d`,
   * then possibly a pause, notify exactly `d`.
   */
  lemma PageNotices(trace: seq<Effect>, cursor: Option<string>, d: seq<Effect>, pause: seq<Effect>)
    requires forall k :: 0 <= k < |d| ==> IsNotice(d[k])
    requires pause == [] || pause == [Sleep]
    ensures Notices(trace + [Request(cursor)] + d + pause) == Notices(trace) + d
  {
    KeepAllNotices(d);
    KeepAppend(trace, [Request(cursor)], true);
    KeepAppend(trace + [Request(cursor)], d, true);
    KeepAppend(trace + [Request(cursor)] + d, pause, true);
  }

  /** The traffic of one page is its request, then possibly a pause. */
  lemma PageTraffic(trace: seq<Effect>, cursor: Option<string>, d: seq<Effect>, pause: seq<Effect>)
    requires forall k :: 0 <= k < |d| ==> IsNotice(d[k])
    requires pause == [] || pause == [Sleep]
    ensures Traffic(trace + [Request(cursor)] + d + pause) == Traffic(trace) + [Request(cursor)] + pause
  {
    KeepAllNotices(d);
    KeepAppend(trace, [Request(cursor)], false);
    KeepAppend(trace + [Request(cursor)], d, false);
    KeepAppend(trace + [Request(cursor)] + d, pause, false);
  }

  /**
   * The traffic of a fetch that requested the cursors `cs`: every request
   * is followed by a pause except the last one.
   */
  function PagingSchedule(cs: seq<Option<string>>): (r: seq<Effect>)
    ensures cs == [] ==> r == []
    ensures cs != [] ==> |r| == 2 * |cs| - 1
    ensures forall k :: 0 <= k < |r| ==> r[k] == if k % 2 == 0 then Request(cs[k / 2]) else Sleep
    decreases |cs|
  {
    if cs == [] then []
    else if |cs| == 1 then [Request(cs[0])]
    else [Request(cs[0]), Sleep] + PagingSchedule(cs[1..])
  }

  lemma ScheduleCons(cursor: Option<string>, cs: seq<Option<string>>)
    requires cs != []
    ensures PagingSchedule([cursor] + cs) == [Request(cursor), Sleep] + PagingSchedule(cs)
  {
  }
}
