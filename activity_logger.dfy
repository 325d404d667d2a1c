/** The server's in-memory activity log (`activityLogger.js`): a module-level
    array that `logActivity` grows at the front and trims to 20 entries, and
    whose first 10 entries `getActivityLogs` serves. The time string of an
    entry is opaque (a parameter). */
module ActivityLogger {
  import opened Common

  /** The most entries kept. */
  const Cap: nat := 20

  /** The most entries served. */
  const View: nat := 10

  datatype Entry = Entry(message: string, time: string)

  /** The log after one `logActivity`: `unshift` the entry, then `pop` once
      if the log is longer than the cap. */
  function Pushed(logs: seq<Entry>, e: Entry): seq<Entry> {
    var grown := [e] + logs;
    if |grown| > Cap then grown[..|grown| - 1] else grown
  }

  /** The new entry is first; below the cap nothing is lost. */
  lemma PushedFront(logs: seq<Entry>, e: Entry)
    ensures |Pushed(logs, e)| >= 1 && Pushed(logs, e)[0] == e
    ensures |logs| < Cap ==> Pushed(logs, e) == [e] + logs
  {
  }

  /** At the cap only the oldest (last) entry is dropped and the others keep their order. */
  lemma PushedAtCap(logs: seq<Entry>, e: Entry)
    requires |logs| >= Cap
    ensures |Pushed(logs, e)| == |logs|
    ensures Pushed(logs, e)[1..] == logs[..|logs| - 1]
  {
    var grown := [e] + logs;
    assert grown[..|grown| - 1][1..] == logs[..|logs| - 1];
  }

  /** The log after the calls `es`, oldest call first. */
  function Replay(logs: seq<Entry>, es: seq<Entry>): seq<Entry>
    decreases |es|
  {
    if es == [] then logs else Replay(Pushed(logs, es[0]), es[1..])
  }

  function Reverse(s: seq<Entry>): (r: seq<Entry>)
    ensures |r| == |s|
    ensures forall i :: 0 <= i < |s| ==> r[i] == s[|s| - 1 - i]
  {
    if s == [] then [] else Reverse(s[1..]) + [s[0]]
  }

  /** A log of at most 20 entries stays one: after the calls `es` it is the
      newest entries first, then the older log, cut to 20. */
  lemma {:induction false} ReplayNewestFirst(logs: seq<Entry>, es: seq<Entry>)
    requires |logs| <= Cap
    ensures Replay(logs, es) == (Reverse(es) + logs)[..Min(Cap, |es| + |logs|)]
    decreases |es|
  {
    if es == [] {
      assert (Reverse(es) + logs)[..|logs|] == logs;
    } else {
      var e, rest := es[0], es[1..];
      var next := Pushed(logs, e);
      assert next == ([e] + logs)[..Min(Cap, 1 + |logs|)];
      ReplayNewestFirst(next, rest);
      assert Reverse(es) == Reverse(rest) + [e];
      var whole := Reverse(rest) + [e] + logs;
      var n := Min(Cap, |rest| + |next|);
      assert n == Min(Cap, |es| + |logs|);
      assert (Reverse(rest) + next)[..n] == whole[..n] by {
        forall i | 0 <= i < n ensures (Reverse(rest) + next)[i] == whole[i] {
          if i >= |rest| {
            assert next[i - |rest|] == ([e] + logs)[i - |rest|];
          }
        }
      }
    }
  }

  /** Starting empty, the log never holds more than 20 entries, and holds the
      latest ones newest first. */
  lemma LogFromEmpty(es: seq<Entry>)
    ensures |Replay([], es)| == Min(Cap, |es|)
    ensures forall i :: 0 <= i < |Replay([], es)| ==> Replay([], es)[i] == es[|es| - 1 - i]
  {
    ReplayNewestFirst([], es);
    assert Reverse(es) + [] == Reverse(es);
  }

  /** The module-level `activityLogs` array. */
  class Log {
    var logs: seq<Entry>

    predicate Valid()
      reads this
    {
      |logs| <= Cap
    }

    constructor ()
      ensures Valid() && logs == []
    {
      logs := [];
    }

    /** `logActivity(message)`, stamped with `time`. */
    method LogActivity(message: string, time: string)
      requires Valid()
      modifies this
      ensures Valid()
      ensures logs == Pushed(old(logs), Entry(message, time))
    {
      logs := [Entry(message, time)] + logs;
      if |logs| > Cap {
        logs := logs[..|logs| - 1];
      }
    }

    /** `getActivityLogs()`: the first ten entries, newest first; the log is not changed. */
    function GetActivityLogs(): (r: seq<Entry>)
      reads this
      ensures |r| == Min(View, |logs|)
      ensures forall i :: 0 <= i < |r| ==> r[i] == logs[i]
    {
      logs[..Min(View, |logs|)]
    }
  }
}
