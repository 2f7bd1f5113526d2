/** The diagnostic console of the backend test page: a list of log entries,
    newest first, to which the page adds its own entries one at a time and into
    which it merges the audit-log items the backend reports.

    The merge keeps the items created within the last hour, orders them by
    creation time, formats each as a console message, drops those whose
    message the console already shows, and puts the rest on top, newest first.
    The current time and the locale's time formatting are inputs. */
module AuditLog {
  import opened Wrappers
  import opened Json
  import StableSort

  datatype LogKind = Info | Error | Success | Debug

  datatype LogEntry = LogEntry(kind: LogKind, message: string, timestamp: string)

  /** `addLog`: the new entry goes on top, the others stay in order below it. */
  function AddLog(logs: seq<LogEntry>, kind: LogKind, message: string, timestamp: string): (r: seq<LogEntry>)
    ensures |r| == |logs| + 1
    ensures r[0].kind == kind && r[0].message == message && r[0].timestamp == timestamp
    ensures forall i :: 0 <= i < |logs| ==> r[i + 1] == logs[i]
  {
    [LogEntry(kind, message, timestamp)] + logs
  }

  /** An item's metadata string: absent or empty, text `JSON.parse` rejects,
      or the value it parses to. */
  datatype Metadata = NoMetadata | Malformed | ParsedMetadata(value: Json)

  /** An audit-log item. `createdAt` is its creation time in milliseconds
      since the epoch, None when the stored date does not parse (its time is
      then NaN). */
  datatype AuditItem = AuditItem(createdAt: Option<int>, action: string, details: string, metadata: Metadata)

  /** One hour in milliseconds. */
  const RecentWindowMs: int := 3600000

  /** Created less than an hour before `now` (or after it); an unparseable
      date compares false and is never recent. */
  predicate IsRecent(item: AuditItem, now: int)
  {
    item.createdAt.Some? && now - item.createdAt.value < RecentWindowMs
  }

  /** The sort key: the creation time (every item that reaches the sort is
      recent, so has one). */
  function CreatedAt(item: AuditItem): int
  {
    item.createdAt.GetOr(0)
  }

  /** The correlation id a message is prefixed with, if any: metadata that
      parses to an object whose `correlationId` is truthy and converts to a
      string. Missing metadata reads as `{}`; a parse failure, the TypeError of
      reading a property of `null`, and the TypeError of converting the id are
      caught and leave no prefix. */
  function CorrelationId(m: Metadata): Option<Json>
  {
    match m
    case NoMetadata => None
    case Malformed => None
    case ParsedMetadata(meta) =>
      if meta.JNull? then None
      else
        var id := Get(meta, "correlationId");
        if Truthy(id) && !StringThrows(id.value) then id else None
  }

  /** The console message of an item. */
  function FormatMessage(item: AuditItem): string
  {
    var prefix :=
      match CorrelationId(item.metadata)
      case Some(id) => "[" + TemplateString(id) + "] "
      case None => "";
    prefix + "[SERVICE] " + item.action + ": " + item.details
  }

  /** A message reads `[id] [SERVICE] action: details` exactly when the
      metadata parses to an object with a truthy correlation id that converts
      to a string, and `[SERVICE] action: details` otherwise. */
  lemma FormatMessageCases(item: AuditItem)
    ensures var body := "[SERVICE] " + item.action + ": " + item.details;
            if item.metadata.ParsedMetadata? && item.metadata.value.JObj?
               && Truthy(Get(item.metadata.value, "correlationId"))
               && !StringThrows(Get(item.metadata.value, "correlationId").value)
            then FormatMessage(item) ==
                   "[" + TemplateString(Get(item.metadata.value, "correlationId").value) + "] " + body
            else FormatMessage(item) == body
  {
  }

  /** A correlation id object with its own `toString` member makes the
      conversion throw, and the message has no prefix. */
  lemma UnconvertibleIdDropsPrefix(createdAt: Option<int>, action: string, details: string)
    ensures var id := JObj([Field("toString", JNum("1"))]);
            var item := AuditItem(createdAt, action, details, ParsedMetadata(JObj([Field("correlationId", id)])));
            FormatMessage(item) == "[SERVICE] " + action + ": " + details
  {
    var id := JObj([Field("toString", JNum("1"))]);
    assert id.fields[0].key == "toString";
    assert StringThrows(id);
  }

  /** The messages the console already shows. */
  function Shown(logs: seq<LogEntry>): set<string>
  {
    set i | 0 <= i < |logs| :: logs[i].message
  }

  /** The console entry for a merged item. */
  function ToEntry(item: AuditItem, timeLabel: int -> string): LogEntry
  {
    LogEntry(Debug, FormatMessage(item), timeLabel(CreatedAt(item)))
  }

  /** The recent items, in input order. */
  function Recent(items: seq<AuditItem>, now: int): (r: seq<AuditItem>)
    ensures |r| <= |items|
    ensures forall i :: 0 <= i < |r| ==> IsRecent(r[i], now)
  {
    if |items| == 0 then []
    else (if IsRecent(items[0], now) then [items[0]] else []) + Recent(items[1..], now)
  }

  /** The items whose message is not already shown, in input order. */
  function Unseen(items: seq<AuditItem>, shown: set<string>): (r: seq<AuditItem>)
    ensures |r| <= |items|
  {
    if |items| == 0 then []
    else (if FormatMessage(items[0]) !in shown then [items[0]] else []) + Unseen(items[1..], shown)
  }

  /** No item left has a shown message. */
  lemma {:induction false} UnseenUnshown(items: seq<AuditItem>, shown: set<string>)
    ensures forall i :: 0 <= i < |Unseen(items, shown)| ==> FormatMessage(Unseen(items, shown)[i]) !in shown
    decreases |items|
  {
    if |items| > 0 {
      UnseenUnshown(items[1..], shown);
    }
  }

  /** Dropping the shown items keeps only items of the input. */
  lemma {:induction false} UnseenMembers(items: seq<AuditItem>, shown: set<string>)
    ensures forall i :: 0 <= i < |Unseen(items, shown)| ==> Unseen(items, shown)[i] in items
    decreases |items|
  {
    if |items| > 0 {
      var rest := Unseen(items[1..], shown);
      UnseenMembers(items[1..], shown);
      forall i | 0 <= i < |rest| ensures rest[i] in items {
        var j :| 0 <= j < |items[1..]| && items[1..][j] == rest[i];
        assert items[j + 1] == rest[i];
      }
    }
  }

  /** The items the merge should add, in input order: recent ones whose
      message the console does not show yet. Duplicates within the batch are
      all kept. */
  function Wanted(items: seq<AuditItem>, logs: seq<LogEntry>, now: int): seq<AuditItem>
  {
    if |items| == 0 then []
    else
      (if IsRecent(items[0], now) && FormatMessage(items[0]) !in Shown(logs) then [items[0]] else [])
      + Wanted(items[1..], logs, now)
  }

  /** The items the merge adds, in the order the page computes them: filter
      the recent ones, sort by creation time, drop those already shown. */
  function NewItems(items: seq<AuditItem>, logs: seq<LogEntry>, now: int): seq<AuditItem>
  {
    Unseen(StableSort.SortByKey(Recent(items, now), CreatedAt), Shown(logs))
  }

  function Reverse<T>(s: seq<T>): (r: seq<T>)
    ensures |r| == |s|
    ensures forall i :: 0 <= i < |s| ==> r[i] == s[|s| - 1 - i]
  {
    if |s| == 0 then [] else Reverse(s[1..]) + [s[0]]
  }

  function Entries(items: seq<AuditItem>, timeLabel: int -> string): (r: seq<LogEntry>)
    ensures |r| == |items|
    ensures forall i :: 0 <= i < |items| ==> r[i] == ToEntry(items[i], timeLabel)
  {
    seq(|items|, i requires 0 <= i < |items| => ToEntry(items[i], timeLabel))
  }

  /** The entries of `added`, newest first, on top of `logs`; `logs` itself
      when nothing is added. */
  function PutOnTop(added: seq<AuditItem>, logs: seq<LogEntry>, timeLabel: int -> string): (r: seq<LogEntry>)
    ensures |r| == |added| + |logs|
    ensures r[|added|..] == logs
    ensures forall i :: 0 <= i < |added| ==> r[i] == ToEntry(added[|added| - 1 - i], timeLabel)
  {
    var newEntries := Entries(added, timeLabel);
    if |newEntries| == 0 then logs
    else
      var n := |added|;
      var top := Reverse(newEntries);
      assert forall i :: 0 <= i < n ==> (top + logs)[i] == ToEntry(added[n - 1 - i], timeLabel) by {
        forall i | 0 <= i < n ensures (top + logs)[i] == ToEntry(added[n - 1 - i], timeLabel) {
          var k := n - 1 - i;
          assert (top + logs)[i] == top[i] == newEntries[k];
        }
      }
      assert (top + logs)[n..] == logs;
      top + logs
  }

  /** `processLogs` applied to the console's entries `logs`: the entries of
      the new items, newest first, on top of the old entries, which are kept
      unchanged. */
  function ProcessLogs(logs: seq<LogEntry>, items: seq<AuditItem>, now: int, timeLabel: int -> string): (r: seq<LogEntry>)
    ensures var added := NewItems(items, logs, now);
            && |r| == |added| + |logs|
            && r[|added|..] == logs
            && forall i :: 0 <= i < |added| ==> r[i] == ToEntry(added[|added| - 1 - i], timeLabel)
  {
    var recent := StableSort.SortByKey(Recent(items, now), CreatedAt);
    if |recent| == 0 then logs
    else PutOnTop(Unseen(recent, Shown(logs)), logs, timeLabel)
  }

  // ----- Filtering commutes with the stable sort -----

  lemma {:induction false} UnseenWithKey(s: seq<AuditItem>, shown: set<string>, k: int)
    ensures StableSort.WithKey(Unseen(s, shown), CreatedAt, k) == Unseen(StableSort.WithKey(s, CreatedAt, k), shown)
    decreases |s|
  {
    if |s| > 0 {
      UnseenWithKey(s[1..], shown, k);
      var keep := FormatMessage(s[0]) !in shown;
      var h := if keep then [s[0]] else [];
      StableSort.WithKeyConcat(h, Unseen(s[1..], shown), CreatedAt, k);
      var w := StableSort.WithKey(s[1..], CreatedAt, k);
      if CreatedAt(s[0]) == k {
        assert StableSort.WithKey(s, CreatedAt, k) == [s[0]] + w;
        assert ([s[0]] + w)[1..] == w;
      } else {
        assert StableSort.WithKey(s, CreatedAt, k) == w;
      }
    }
  }

  lemma {:induction false} UnseenSorted(s: seq<AuditItem>, shown: set<string>)
    requires StableSort.Sorted(s, CreatedAt)
    ensures StableSort.Sorted(Unseen(s, shown), CreatedAt)
    decreases |s|
  {
    if |s| > 0 {
      UnseenSorted(s[1..], shown);
      UnseenMembers(s[1..], shown);
      var rest := Unseen(s[1..], shown);
      forall i | 0 <= i < |rest| ensures CreatedAt(s[0]) <= CreatedAt(rest[i]) {
        var j :| 0 <= j < |s[1..]| && s[1..][j] == rest[i];
        assert s[j + 1] == rest[i];
      }
    }
  }

  lemma {:induction false} UnseenOfRecent(items: seq<AuditItem>, logs: seq<LogEntry>, now: int)
    ensures Unseen(Recent(items, now), Shown(logs)) == Wanted(items, logs, now)
    decreases |items|
  {
    if |items| > 0 {
      UnseenOfRecent(items[1..], logs, now);
      var h := if IsRecent(items[0], now) then [items[0]] else [];
      var rest := Recent(items[1..], now);
      assert Recent(items, now) == h + rest;
      if h == [] {
        assert Recent(items, now) == rest;
      } else {
        assert (h + rest)[0] == items[0];
        assert (h + rest)[1..] == rest;
      }
    }
  }

  /** The page's filter-sort-drop pipeline yields exactly the wanted items in
      ascending creation order, ties in input order: it equals sorting the
      wanted items stably by creation time. */
  lemma NewItemsAreSortedWanted(items: seq<AuditItem>, logs: seq<LogEntry>, now: int)
    ensures NewItems(items, logs, now) == StableSort.SortByKey(Wanted(items, logs, now), CreatedAt)
  {
    var recent := Recent(items, now);
    var sorted := StableSort.SortByKey(recent, CreatedAt);
    var wanted := Wanted(items, logs, now);
    var added := NewItems(items, logs, now);
    UnseenSorted(sorted, Shown(logs));
    forall k ensures StableSort.WithKey(added, CreatedAt, k)
                     == StableSort.WithKey(StableSort.SortByKey(wanted, CreatedAt), CreatedAt, k)
    {
      UnseenWithKey(sorted, Shown(logs), k);
      StableSort.SortByKeyStable(recent, CreatedAt, k);
      UnseenWithKey(recent, Shown(logs), k);
      UnseenOfRecent(items, logs, now);
      StableSort.SortByKeyStable(wanted, CreatedAt, k);
    }
    StableSort.SortedWithKeysUnique(added, StableSort.SortByKey(wanted, CreatedAt), CreatedAt);
  }

  /** Every item the merge adds is recent and its message was not shown
      before. */
  lemma {:induction false} AddedAreRecentAndUnseen(logs: seq<LogEntry>, items: seq<AuditItem>, now: int)
    ensures forall i :: 0 <= i < |NewItems(items, logs, now)| ==>
              IsRecent(NewItems(items, logs, now)[i], now)
              && FormatMessage(NewItems(items, logs, now)[i]) !in Shown(logs)
  {
    var recent := Recent(items, now);
    var sorted := StableSort.SortByKey(recent, CreatedAt);
    var added := NewItems(items, logs, now);
    StableSort.SortByKeyMembers(recent, CreatedAt);
    UnseenMembers(sorted, Shown(logs));
    UnseenUnshown(sorted, Shown(logs));
    forall i | 0 <= i < |added| ensures IsRecent(added[i], now) {
      assert added[i] in sorted;
      var j :| 0 <= j < |sorted| && sorted[j] == added[i];
      assert sorted[j] in recent;
      var m :| 0 <= m < |recent| && recent[m] == added[i];
    }
  }

  /** Reversing an ascending sequence gives a descending one. */
  lemma ReverseDescending(s: seq<AuditItem>)
    requires StableSort.Sorted(s, CreatedAt)
    ensures forall i, j :: 0 <= i < j < |Reverse(s)| ==> CreatedAt(Reverse(s)[j]) <= CreatedAt(Reverse(s)[i])
  {
    var n := |s|;
    forall i, j | 0 <= i < j < n ensures CreatedAt(Reverse(s)[j]) <= CreatedAt(Reverse(s)[i]) {
      assert Reverse(s)[j] == s[n - 1 - j];
      assert Reverse(s)[i] == s[n - 1 - i];
    }
  }

  /** The merged items, taken newest first: the item behind each entry was
      created no earlier than the item behind any entry below it. */
  lemma AddedNewestFirst(logs: seq<LogEntry>, items: seq<AuditItem>, now: int)
    ensures var newestFirst := Reverse(NewItems(items, logs, now));
            forall i, j :: 0 <= i < j < |newestFirst| ==> CreatedAt(newestFirst[j]) <= CreatedAt(newestFirst[i])
  {
    UnseenSorted(StableSort.SortByKey(Recent(items, now), CreatedAt), Shown(logs));
    ReverseDescending(NewItems(items, logs, now));
  }

  /** The merged entries sit on top of the old ones, one debug entry per
      added item, newest first, each with a message the console did not
      show. */
  lemma AddedEntries(logs: seq<LogEntry>, items: seq<AuditItem>, now: int, timeLabel: int -> string)
    ensures var r := ProcessLogs(logs, items, now, timeLabel);
            var newestFirst := Reverse(NewItems(items, logs, now));
            forall i :: 0 <= i < |newestFirst| ==>
              r[i] == ToEntry(newestFirst[i], timeLabel) && r[i].kind == Debug && r[i].message !in Shown(logs)
  {
    ProcessLogsIsPutOnTop(logs, items, now, timeLabel);
    AddedAreRecentAndUnseen(logs, items, now);
    OnTopEntries(NewItems(items, logs, now), logs, Shown(logs), timeLabel);
  }

  lemma ProcessLogsIsPutOnTop(logs: seq<LogEntry>, items: seq<AuditItem>, now: int, timeLabel: int -> string)
    ensures ProcessLogs(logs, items, now, timeLabel) == PutOnTop(NewItems(items, logs, now), logs, timeLabel)
  {
    if |StableSort.SortByKey(Recent(items, now), CreatedAt)| == 0 {
      assert NewItems(items, logs, now) == [];
    }
  }

  lemma OnTopEntries(added: seq<AuditItem>, logs: seq<LogEntry>, shown: set<string>, timeLabel: int -> string)
    requires forall i :: 0 <= i < |added| ==> FormatMessage(added[i]) !in shown
    ensures var r := PutOnTop(added, logs, timeLabel);
            forall i :: 0 <= i < |added| ==>
              r[i] == ToEntry(Reverse(added)[i], timeLabel) && r[i].kind == Debug && r[i].message !in shown
  {
  }

  /** The console is left exactly as it was if and only if no item is both
      recent and new to it (in particular when nothing is recent). */
  lemma UnchangedIff(logs: seq<LogEntry>, items: seq<AuditItem>, now: int, timeLabel: int -> string)
    ensures ProcessLogs(logs, items, now, timeLabel) == logs <==> Wanted(items, logs, now) == []
  {
    NewItemsAreSortedWanted(items, logs, now);
  }

  lemma {:induction false} NoneRecent(items: seq<AuditItem>, now: int)
    requires forall i :: 0 <= i < |items| ==> !IsRecent(items[i], now)
    ensures Recent(items, now) == []
    decreases |items|
  {
    if |items| > 0 {
      NoneRecent(items[1..], now);
    }
  }

  /** When no item is recent the console's entries are returned as they
      were. */
  lemma NothingRecentLeavesLogs(logs: seq<LogEntry>, items: seq<AuditItem>, now: int, timeLabel: int -> string)
    requires forall i :: 0 <= i < |items| ==> !IsRecent(items[i], now)
    ensures ProcessLogs(logs, items, now, timeLabel) == logs
  {
    NoneRecent(items, now);
  }

  /** Items of one batch are checked against the console only, not against
      each other: a recent, unseen item that arrives twice is added twice. */
  lemma BatchDuplicatesKept(logs: seq<LogEntry>, item: AuditItem, now: int, timeLabel: int -> string)
    requires IsRecent(item, now) && FormatMessage(item) !in Shown(logs)
    ensures ProcessLogs(logs, [item, item], now, timeLabel) == [ToEntry(item, timeLabel), ToEntry(item, timeLabel)] + logs
  {
    var pair := [item, item];
    assert pair[1..] == [item] && [item][1..] == [];
    assert Recent([item], now) == [item];
    assert Recent(pair, now) == pair;
    assert pair[..1] == [item];
    assert StableSort.SortByKey([item], CreatedAt) == [item];
    assert StableSort.SortByKey(pair, CreatedAt) == pair;
    assert Unseen([item], Shown(logs)) == [item];
    assert NewItems(pair, logs, now) == pair;
    var r := ProcessLogs(logs, pair, now, timeLabel);
    assert r[2..] == logs;
    assert r == [r[0], r[1]] + r[2..];
  }
}
