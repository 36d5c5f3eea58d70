/**
 * The run-notification list: one entry per started run, keyed by the environment
 * URL it runs against, updated when a status report for that URL arrives, plus
 * the panel's open and "new" flags.
 */
module NotificationService {
  import opened Wrappers
  import opened JsMath
  import opened Text
  import opened Lists

  datatype RunStatus = Running | Done | Failed | Inactive

  /** `startTime` and `endTime` are milliseconds since the epoch. */
  datatype RunNotification = RunNotification(
    id: string,
    atlasUrl: string,
    displayName: string,
    status: RunStatus,
    startTime: int,
    endTime: Option<int>,
    duration: Option<string>)

  /** The body of a status report: `{ "atlas-url": ..., status: ... }`. */
  datatype RunStatusUpdate = RunStatusUpdate(atlasUrl: string, status: string)

  // ---------------------------------------------------------------- status words

  /** Lower-casing twice is lower-casing once. */
  lemma ToLowerIdempotent(s: string)
    ensures ToLower(ToLower(s)) == ToLower(s)
  {
    var once := ToLower(s);
    assert forall i :: 0 <= i < |s| ==> ToLowerChar(once[i]) == once[i];
  }

  /** The status words a report may carry, compared after lower-casing; anything else is inactive. */
  function MapStatus(status: string): (r: RunStatus)
    ensures r == Done <==> ToLower(status) in {"done", "completed", "success"}
    ensures r == Running <==> ToLower(status) in {"running", "in_progress", "pending"}
    ensures r == Failed <==> ToLower(status) in {"failed", "error", "cancelled"}
  {
    var word := ToLower(status);
    if word == "done" || word == "completed" || word == "success" then Done
    else if word == "running" || word == "in_progress" || word == "pending" then Running
    else if word == "failed" || word == "error" || word == "cancelled" then Failed
    else Inactive
  }

  /** Status words are case-insensitive. */
  lemma MapStatusCaseInsensitive(status: string)
    ensures MapStatus(ToLower(status)) == MapStatus(status)
  {
    ToLowerIdempotent(status);
  }

  lemma MapStatusExample()
    ensures MapStatus("Done") == Done
  {
    assert ToLower("Done") == "done";
  }

  // ---------------------------------------------------------------- duration text

  /** `Mm Ss` with at least one minute, else `Ss`. */
  function DurationText(minutes: int, seconds: int): string {
    if minutes > 0 then IntToString(minutes) + "m " + IntToString(seconds) + "s"
    else IntToString(seconds) + "s"
  }

  /** `Math.floor(diffMs / 60000)`: whole minutes, rounded down. */
  function DurationMinutes(diffMs: int): int {
    diffMs / 60000
  }

  /** `Math.floor((diffMs % 60000) / 1000)`: whole seconds past the last whole minute. */
  function DurationSeconds(diffMs: int): int {
    JsRem(diffMs, 60000) / 1000
  }

  /** For a non-negative difference, the two parts recompose the whole seconds elapsed. */
  lemma DurationParts(diffMs: int)
    requires diffMs >= 0
    ensures DurationMinutes(diffMs) >= 0 && 0 <= DurationSeconds(diffMs) < 60
    ensures DurationMinutes(diffMs) * 60 + DurationSeconds(diffMs) == diffMs / 1000
  {
    var m, r := diffMs / 60000, diffMs % 60000;
    assert diffMs == 60000 * m + r && 0 <= r < 60000;
    var sec := r / 1000;
    assert r == 1000 * sec + r % 1000 && 0 <= r % 1000 < 1000;
    assert diffMs == 1000 * (60 * m + sec) + r % 1000;
  }

  /** The run time between two instants in milliseconds, in whole minutes and seconds. */
  function CalculateDuration(start: int, end: int): (text: string)
    ensures end - start >= 0 ==>
      var d := end - start;
      text == DurationText(DurationMinutes(d), DurationSeconds(d))
      && 0 <= DurationSeconds(d) < 60 && DurationMinutes(d) * 60 + DurationSeconds(d) == d / 1000
  {
    var diffMs := end - start;
    if diffMs >= 0 then
      DurationParts(diffMs);
      DurationText(DurationMinutes(diffMs), DurationSeconds(diffMs))
    else
      DurationText(DurationMinutes(diffMs), DurationSeconds(diffMs))
  }

  lemma DurationTextSplits(minutes: nat, seconds: nat)
    ensures minutes > 0 ==>
      DurationText(minutes, seconds) == NatToString(minutes) + ("m " + NatToString(seconds) + "s")
    ensures minutes == 0 ==> DurationText(minutes, seconds) == NatToString(seconds) + "s"
  {
  }

  /** Duration texts of non-negative parts are equal only for equal parts. */
  lemma DurationTextInjective(m1: nat, s1: nat, m2: nat, s2: nat)
    requires DurationText(m1, s1) == DurationText(m2, s2)
    ensures m1 == m2 && s1 == s2
  {
    DurationTextSplits(m1, s1);
    DurationTextSplits(m2, s2);
    if m1 > 0 && m2 > 0 {
      NatPrefixInjective(m1, "m " + NatToString(s1) + "s", m2, "m " + NatToString(s2) + "s");
      var r1, r2 := "m " + NatToString(s1) + "s", "m " + NatToString(s2) + "s";
      assert r1[2..] == NatToString(s1) + "s" && r2[2..] == NatToString(s2) + "s";
      NatPrefixInjective(s1, "s", s2, "s");
    } else if m1 > 0 {
      NatPrefixInjective(m1, "m " + NatToString(s1) + "s", s2, "s");
    } else if m2 > 0 {
      NatPrefixInjective(s1, "s", m2, "m " + NatToString(s2) + "s");
    } else {
      NatPrefixInjective(s1, "s", s2, "s");
    }
  }

  /** Two non-negative run times that show the same text lie in the same whole second. */
  lemma CalculateDurationDistinct(start: int, end1: int, end2: int)
    requires end1 - start >= 0 && end2 - start >= 0
    requires CalculateDuration(start, end1) == CalculateDuration(start, end2)
    ensures (end1 - start) / 1000 == (end2 - start) / 1000
  {
    var d1, d2 := end1 - start, end2 - start;
    DurationParts(d1);
    DurationParts(d2);
    DurationTextInjective(DurationMinutes(d1), DurationSeconds(d1), DurationMinutes(d2), DurationSeconds(d2));
  }

  // ---------------------------------------------------------------- display names

  predicate IsLineTerminator(c: char) {
    var k := c as int;
    k == 0x0A || k == 0x0D || k == 0x2028 || k == 0x2029
  }

  predicate NoLineTerminator(s: string) {
    forall i :: 0 <= i < |s| ==> !IsLineTerminator(s[i])
  }

  /** `replace(/^https?:\/\//, "")`. */
  function StripScheme(s: string): (r: string)
    ensures |r| <= |s| && r == s[|s| - |r|..]
    ensures "https://" <= s ==> r == s[8..]
    ensures !("https://" <= s) && "http://" <= s ==> r == s[7..]
    ensures !("https://" <= s) && !("http://" <= s) ==> r == s
  {
    if |s| >= 8 && s[..8] == "https://" then s[8..]
    else if |s| >= 7 && s[..7] == "http://" then s[7..]
    else s
  }

  /**
   * `replace(/\..*$/, "")`: cut at the first dot that has no line terminator after
   * it (`.` does not match line terminators and `$` is the end of the input).
   */
  function CutAtDot(s: string): (r: string)
    ensures |r| <= |s| && r == s[..|r|]
    ensures r == s || (s[|r|] == '.' && NoLineTerminator(s[|r| + 1..]))
    ensures forall i :: 0 <= i < |r| ==> !(s[i] == '.' && NoLineTerminator(s[i + 1..]))
    decreases |s|
  {
    if s == [] then []
    else if s[0] == '.' && NoLineTerminator(s[1..]) then []
    else
      var rest := CutAtDot(s[1..]);
      assert forall i :: 1 <= i <= |s| ==> s[i..] == s[1..][i - 1..];
      [s[0]] + rest
  }

  /** `replace(/[_-]/g, " ")`. */
  function SeparatorsToSpaces(s: string): (r: string)
    ensures |r| == |s|
    ensures forall i :: 0 <= i < |s| ==> r[i] == (if s[i] == '_' || s[i] == '-' then ' ' else s[i])
  {
    if s == [] then []
    else [if s[0] == '_' || s[0] == '-' then ' ' else s[0]] + SeparatorsToSpaces(s[1..])
  }

  /** `charAt(0).toUpperCase() + slice(1)`. */
  function CapitalizeFirst(s: string): (r: string)
    ensures |r| == |s| && (s != [] ==> r[0] == ToUpperChar(s[0]) && r[1..] == s[1..])
  {
    if s == [] then [] else [ToUpperChar(s[0])] + s[1..]
  }

  const DefaultEnvironment := "Default Environment"

  /** The environment name shown for a URL. */
  function GetDisplayName(atlasUrl: string): (name: string)
    ensures atlasUrl == "" || atlasUrl == "noderprod" ==> name == DefaultEnvironment
    ensures !(atlasUrl == "" || atlasUrl == "noderprod") ==>
      name == CapitalizeFirst(SeparatorsToSpaces(CutAtDot(StripScheme(atlasUrl))))
  {
    if atlasUrl == "" || atlasUrl == "noderprod" then DefaultEnvironment
    else CapitalizeFirst(SeparatorsToSpaces(CutAtDot(StripScheme(atlasUrl))))
  }

  /** A suffix of a string without line terminators has none either. */
  lemma NoLineTerminatorSuffix(s: string, k: nat)
    requires NoLineTerminator(s) && k <= |s|
    ensures NoLineTerminator(s[k..])
  {
    forall i | 0 <= i < |s[k..]|
      ensures !IsLineTerminator(s[k..][i])
    {
      assert s[k..][i] == s[k + i];
    }
  }

  /** Without line terminators, every dot counts, so the cut keeps none. */
  lemma CutAtDotNoDot(s: string)
    requires NoLineTerminator(s)
    ensures '.' !in CutAtDot(s)
  {
    var cut := CutAtDot(s);
    forall i | 0 <= i < |cut|
      ensures cut[i] != '.'
    {
      NoLineTerminatorSuffix(s, i + 1);
      assert cut[i] == s[i];
    }
  }

  /** Capitalising the first character adds no character that is not an upper-case letter. */
  lemma CapitalizeFirstAvoids(s: string, c: char)
    requires c !in s && !('A' <= c <= 'Z')
    ensures c !in CapitalizeFirst(s)
  {
    var r := CapitalizeFirst(s);
    forall i | 0 <= i < |r|
      ensures r[i] != c
    {
      if i > 0 {
        assert r[i] == r[1..][i - 1] == s[1..][i - 1] == s[i];
      }
    }
  }

  /**
   * A derived name has no underscore or hyphen, is no longer than the URL, and,
   * for a URL without line terminators, stops before the first dot.
   */
  lemma DisplayNameShape(atlasUrl: string)
    requires !(atlasUrl == "" || atlasUrl == "noderprod")
    ensures var name := GetDisplayName(atlasUrl);
      |name| <= |atlasUrl| && '_' !in name && '-' !in name
      && (NoLineTerminator(atlasUrl) ==> '.' !in name)
  {
    var host := StripScheme(atlasUrl);
    var cut := CutAtDot(host);
    var spaced := SeparatorsToSpaces(cut);
    assert '_' !in spaced && '-' !in spaced by {
      forall i | 0 <= i < |spaced|
        ensures spaced[i] != '_' && spaced[i] != '-'
      {
      }
    }
    CapitalizeFirstAvoids(spaced, '_');
    CapitalizeFirstAvoids(spaced, '-');
    if NoLineTerminator(atlasUrl) {
      NoLineTerminatorSuffix(atlasUrl, |atlasUrl| - |host|);
      CutAtDotNoDot(host);
      assert '.' !in spaced by {
        forall i | 0 <= i < |spaced|
          ensures spaced[i] != '.'
        {
          assert cut[i] != '.';
        }
      }
      CapitalizeFirstAvoids(spaced, '.');
    }
  }

  lemma StripSchemeExample()
    ensures StripScheme("http://a_b.c") == "a_b.c"
  {
    var url := "http://a_b.c";
    assert url[..8][4] != "https://"[4];
    assert url[..7] == "http://" && url[7..] == "a_b.c";
  }

  lemma CutAtDotExample()
    ensures CutAtDot("a_b.c") == "a_b"
  {
    var host := "a_b.c";
    assert host[3..] == ".c" && host[3..][1..] == "c";
    assert NoLineTerminator(host[3..][1..]);
    assert CutAtDot(host[3..]) == [];
    assert host[2..] == "b.c" && host[2..][1..] == host[3..];
    assert CutAtDot(host[2..]) == "b";
    assert host[1..] == "_b.c" && host[1..][1..] == host[2..];
    assert CutAtDot(host[1..]) == "_b";
  }

  lemma DisplayNameExample()
    ensures GetDisplayName("http://a_b.c") == "A b"
  {
    StripSchemeExample();
    CutAtDotExample();
    var spaced := SeparatorsToSpaces("a_b");
    assert spaced == "a b";
    assert CapitalizeFirst(spaced) == [ToUpperChar('a')] + " b";
  }

  // ---------------------------------------------------------------- the service

  /** The index of the first entry for `atlasUrl` (`findIndex`). */
  function FindByUrl(notifications: seq<RunNotification>, atlasUrl: string): (r: Option<nat>)
    ensures r.None? <==> forall j :: 0 <= j < |notifications| ==> notifications[j].atlasUrl != atlasUrl
    ensures r.Some? ==>
      r.value < |notifications| && notifications[r.value].atlasUrl == atlasUrl
      && forall j :: 0 <= j < r.value ==> notifications[j].atlasUrl != atlasUrl
    decreases |notifications|
  {
    if notifications == [] then None
    else if notifications[0].atlasUrl == atlasUrl then Some(0)
    else
      var r := FindByUrl(notifications[1..], atlasUrl);
      assert forall j :: 1 <= j < |notifications| ==> notifications[j] == notifications[1..][j - 1];
      match r
      case None => None
      case Some(k) => Some(k + 1)
  }

  /** The entry a report for an unknown URL adds. */
  function InactiveError(atlasUrl: string, id: string, now: int): RunNotification {
    RunNotification(id, atlasUrl, "Unknown: " + atlasUrl, Inactive, now, Some(now), Some("0s"))
  }

  /** Ids and timestamps come from outside: `id` and `now` stand for `generateId()` and `new Date()`. */
  class NotificationService {
    var notifications: seq<RunNotification>
    var isOpen: bool
    var hasNewNotifications: bool

    constructor ()
      ensures notifications == [] && !isOpen && !hasNewNotifications
    {
      notifications, isOpen, hasNewNotifications := [], false, false;
    }

    function NotificationCount(): (n: nat)
      reads this
      ensures n == |notifications|
    {
      |notifications|
    }

    function RunningCount(): (n: nat)
      reads this
      ensures n <= |notifications|
      ensures n == |Filter(notifications, (x: RunNotification) => x.status == Running)|
    {
      |Filter(notifications, (x: RunNotification) => x.status == Running)|
    }

    function ActiveNotifications(): (r: seq<RunNotification>)
      reads this
      ensures forall x :: x in r <==> x in notifications && x.status != Inactive
      ensures Subsequence(r, notifications)
    {
      Filter(notifications, (x: RunNotification) => x.status != Inactive)
    }

    /** A new running entry for the URL goes at the end; the earlier entries are kept. */
    method AddRunNotification(atlasUrl: string, id: string, now: int) returns (newId: string)
      modifies this
      ensures newId == id
      ensures notifications == old(notifications) + [RunNotification(id, atlasUrl, GetDisplayName(atlasUrl), Running, now, None, None)]
      ensures hasNewNotifications && isOpen == old(isOpen)
    {
      var notification := RunNotification(id, atlasUrl, GetDisplayName(atlasUrl), Running, now, None, None);
      notifications := notifications + [notification];
      hasNewNotifications := true;
      return id;
    }

    /**
     * A report for a known URL settles its first entry: mapped status, end time and
     * duration text. A report for an unknown URL adds an inactive error entry.
     */
    method UpdateRunStatus(atlasUrl: string, status: string, freshId: string, now: int) returns (found: bool)
      modifies this
      ensures found <==> FindByUrl(old(notifications), atlasUrl).Some?
      ensures found ==>
        var k := FindByUrl(old(notifications), atlasUrl).value;
        var n := old(notifications)[k];
        notifications == old(notifications)[k := n.(status := MapStatus(status), endTime := Some(now),
                                                    duration := Some(CalculateDuration(n.startTime, now)))]
      ensures !found ==> notifications == old(notifications) + [InactiveError(atlasUrl, freshId, now)]
      ensures hasNewNotifications && isOpen == old(isOpen)
    {
      var index := FindByUrl(notifications, atlasUrl);
      if index.None? {
        AddInactiveError(atlasUrl, freshId, now);
        return false;
      }
      var k := index.value;
      var n := notifications[k];
      var updated := n.(status := MapStatus(status), endTime := Some(now),
                        duration := Some(CalculateDuration(n.startTime, now)));
      notifications := notifications[k := updated];
      hasNewNotifications := true;
      return true;
    }

    method AddInactiveError(atlasUrl: string, id: string, now: int)
      modifies this
      ensures notifications == old(notifications) + [InactiveError(atlasUrl, id, now)]
      ensures hasNewNotifications && isOpen == old(isOpen)
    {
      notifications := notifications + [InactiveError(atlasUrl, id, now)];
      hasNewNotifications := true;
    }

    /** The POST handler of a status report. */
    method HandleStatusUpdate(update: RunStatusUpdate, freshId: string, now: int)
      modifies this
      ensures FindByUrl(old(notifications), update.atlasUrl).Some? ==>
        var k := FindByUrl(old(notifications), update.atlasUrl).value;
        var n := old(notifications)[k];
        notifications == old(notifications)[k := n.(status := MapStatus(update.status), endTime := Some(now),
                                                    duration := Some(CalculateDuration(n.startTime, now)))]
      ensures FindByUrl(old(notifications), update.atlasUrl).None? ==>
        notifications == old(notifications) + [InactiveError(update.atlasUrl, freshId, now)]
      ensures |notifications| == |old(notifications)| + (if FindByUrl(old(notifications), update.atlasUrl).Some? then 0 else 1)
      ensures hasNewNotifications && isOpen == old(isOpen)
    {
      var _ := UpdateRunStatus(update.atlasUrl, update.status, freshId, now);
    }

    /** Opening the panel marks everything seen; closing it keeps the "new" flag. */
    method TogglePanel()
      modifies this`isOpen, this`hasNewNotifications
      ensures isOpen == !old(isOpen)
      ensures hasNewNotifications == (if isOpen then false else old(hasNewNotifications))
    {
      isOpen := !isOpen;
      if isOpen {
        hasNewNotifications := false;
      }
    }

    method ClosePanel()
      modifies this`isOpen
      ensures !isOpen
    {
      isOpen := false;
    }

    method ClearAll()
      modifies this`notifications, this`hasNewNotifications
      ensures notifications == [] && !hasNewNotifications
    {
      notifications := [];
      hasNewNotifications := false;
    }

    method RemoveNotification(id: string)
      modifies this`notifications
      ensures notifications == Filter(old(notifications), (x: RunNotification) => x.id != id)
      ensures forall x :: x in notifications <==> x in old(notifications) && x.id != id
      ensures forall x :: multiset(notifications)[x] == if x.id != id then multiset(old(notifications))[x] else 0
      ensures Subsequence(notifications, old(notifications))
    {
      notifications := Filter(notifications, (x: RunNotification) => x.id != id);
    }

    method ClearCompleted()
      modifies this`notifications
      ensures notifications == Filter(old(notifications), (x: RunNotification) => x.status == Running)
      ensures forall x :: x in notifications <==> x in old(notifications) && x.status == Running
      ensures forall x ::
        multiset(notifications)[x] == if x.status == Running then multiset(old(notifications))[x] else 0
      ensures Subsequence(notifications, old(notifications))
    {
      notifications := Filter(notifications, (x: RunNotification) => x.status == Running);
    }
  }

  /** A run started and then reported done for the same URL leaves one settled entry. */
  method StartThenFinish(service: NotificationService, atlasUrl: string, id: string, t0: int, t1: int)
    requires service.notifications == []
    modifies service
  {
    var _ := service.AddRunNotification(atlasUrl, id, t0);
    var found := service.UpdateRunStatus(atlasUrl, "Completed", "unused", t1);
    assert found;
    assert ToLower("Completed") == "completed";
    assert service.notifications == [RunNotification(id, atlasUrl, GetDisplayName(atlasUrl), Done, t0, Some(t1),
                                                     Some(CalculateDuration(t0, t1)))];
  }
}
