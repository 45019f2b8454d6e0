/** The bounded per-test evidence log, honest about what it dropped. */
module Evidence {
  import opened Common

  const MAX_ENTRIES: nat := 50_000

  datatype Entry = Entry(atUs: nat, source: string, line: string)

  /** Formatted output, line by line; the text of an entry's line is not modelled. */
  datatype Line = DropNotice(dropped: nat) | EntryLine(entry: Entry)

  /** The retained entries, and how many older ones were dropped. */
  datatype Log = Log(entries: seq<Entry>, dropped: nat)

  /** Recording one more entry, evicting the oldest at the cap. */
  function Push(log: Log, entry: Entry): Log {
    if |log.entries| >= MAX_ENTRIES then Log(log.entries[1..] + [entry], log.dropped + 1)
    else log.(entries := log.entries + [entry])
  }

  /** The log after every record of a history. */
  function PushAll(history: seq<Entry>): Log {
    if history == [] then Log([], 0) else Push(PushAll(history[..|history| - 1]), history[|history| - 1])
  }

  /** The last `n` elements of a sequence, or all of it. */
  function Last<T>(s: seq<T>, n: nat): (suffix: seq<T>)
    ensures |suffix| == Min(n, |s|)
  {
    s[|s| - Min(n, |s|)..]
  }

  function Lines(entries: seq<Entry>): (lines: seq<Line>)
    ensures |lines| == |entries| && forall k :: 0 <= k < |lines| ==> lines[k] == EntryLine(entries[k])
  {
    seq(|entries|, (k: nat) requires k < |entries| => EntryLine(entries[k]))
  }

  lemma LastSnoc<T>(s: seq<T>, x: T, n: nat)
    requires n > 0
    ensures Last(s + [x], n) == (if |s| >= n then Last(s, n)[1..] else Last(s, n)) + [x]
  {
  }

  /** Over whole histories: what is retained is the last min(total, MAX_ENTRIES)
      records, and dropped plus retained is the total. */
  lemma {:induction false} LogIsTheLastEntries(history: seq<Entry>)
    ensures PushAll(history).entries == Last(history, MAX_ENTRIES)
    ensures PushAll(history).dropped + |PushAll(history).entries| == |history|
  {
    if history == [] {
    } else {
      var init, entry := history[..|history| - 1], history[|history| - 1];
      assert history == init + [entry];
      LogIsTheLastEntries(init);
      LastSnoc(init, entry, MAX_ENTRIES);
    }
  }

  /** A record is still retained exactly while fewer than MAX_ENTRIES were made after it. */
  lemma RetainedIff(before: seq<Entry>, entry: Entry, after: seq<Entry>)
    requires entry !in after
    ensures entry in PushAll(before + [entry] + after).entries <==> |after| < MAX_ENTRIES
  {
    LogIsTheLastEntries(before + [entry] + after);
    LastHoldsIff(before, entry, after, MAX_ENTRIES);
  }

  /** The last `n` elements hold an element followed by no other like it exactly
      when fewer than `n` follow it. */
  lemma LastHoldsIff<T>(before: seq<T>, x: T, after: seq<T>, n: nat)
    requires x !in after
    ensures x in Last(before + [x] + after, n) <==> |after| < n
  {
    var all := before + [x] + after;
    var skip := |all| - Min(n, |all|);
    if |after| < n {
      assert Last(all, n)[|before| - skip] == all[|before|] == x;
    } else {
      assert forall k :: 0 <= k < |Last(all, n)| ==> Last(all, n)[k] == after[skip + k - |before| - 1];
    }
  }

  lemma LinesHoldIff(entries: seq<Entry>, entry: Entry, head: seq<Line>)
    requires forall k :: 0 <= k < |head| ==> head[k].DropNotice?
    ensures EntryLine(entry) in head + Lines(entries) <==> entry in entries
  {
    if entry in entries {
      var k :| 0 <= k < |entries| && entries[k] == entry;
      assert (head + Lines(entries))[|head| + k] == EntryLine(entry);
    }
  }

  /** The tail shown for a history: its last `n` retained records, under a notice
      exactly when all that is retained is shown and something was dropped before it. */
  function TailOf(history: seq<Entry>, n: nat): seq<Line> {
    (if |history| > MAX_ENTRIES && n >= MAX_ENTRIES then [DropNotice(|history| - MAX_ENTRIES)] else [])
    + Lines(Last(history, Min(n, MAX_ENTRIES)))
  }

  lemma LastOfLast<T>(s: seq<T>, m: nat, n: nat)
    ensures Last(Last(s, m), n) == Last(s, Min(n, m))
  {
  }

  /** The log alone, by its length and its count of drops, determines that tail. */
  lemma TailOfLog(history: seq<Entry>, n: nat, log: Log)
    requires log.entries == Last(history, MAX_ENTRIES) && log.dropped + |log.entries| == |history|
    ensures var skip := if |log.entries| > n then |log.entries| - n else 0;
            TailOf(history, n) == (if log.dropped > 0 && skip == 0 then [DropNotice(log.dropped)] else [])
                                  + Lines(log.entries[skip..])
  {
    LastOfLast(history, MAX_ENTRIES, n);
    var skip := if |log.entries| > n then |log.entries| - n else 0;
    assert log.entries[skip..] == Last(log.entries, n);
  }

  /** The file written for a history: it opens with a notice exactly when records
      were dropped, and with it accounts for them all. */
  function FileOf(history: seq<Entry>): seq<Line> {
    (if |history| > MAX_ENTRIES then [DropNotice(|history| - MAX_ENTRIES)] else [])
    + Lines(Last(history, MAX_ENTRIES))
  }

  /** The entries that formatted output shows, in its order. */
  function Shown(lines: seq<Line>): seq<Entry> {
    if lines == [] then []
    else (if lines[0].EntryLine? then [lines[0].entry] else []) + Shown(lines[1..])
  }

  /** The number of missing entries it owns up to. */
  function OwnedUp(lines: seq<Line>): nat {
    if lines != [] && lines[0].DropNotice? then lines[0].dropped else 0
  }

  lemma {:induction false} LinesShowTheirEntries(entries: seq<Entry>)
    ensures Shown(Lines(entries)) == entries
  {
    if entries == [] {
    } else {
      assert Lines(entries)[1..] == Lines(entries[1..]);
      LinesShowTheirEntries(entries[1..]);
    }
  }

  /** Under a notice or under none, the same entries are shown. */
  lemma HeadedLines(notice: seq<Line>, entries: seq<Entry>)
    requires notice == [] || (|notice| == 1 && notice[0].DropNotice?)
    ensures Shown(notice + Lines(entries)) == entries
    ensures OwnedUp(notice + Lines(entries)) == if notice == [] then 0 else notice[0].dropped
  {
    LinesShowTheirEntries(entries);
    if notice == [] {
      assert notice + Lines(entries) == Lines(entries);
    } else {
      assert (notice + Lines(entries))[1..] == Lines(entries);
    }
  }

  /** The log file shows the newest records in the order they were made, and they and
      the number it owns up to make up all that was ever recorded. */
  lemma FileAccountsForEverything(history: seq<Entry>)
    ensures var shown := Shown(FileOf(history));
            && |shown| == Min(|history|, MAX_ENTRIES) && shown == history[|history| - |shown|..]
            && OwnedUp(FileOf(history)) + |shown| == |history|
  {
    var notice := if |history| > MAX_ENTRIES then [DropNotice(|history| - MAX_ENTRIES)] else [];
    HeadedLines(notice, Last(history, MAX_ENTRIES));
  }

  /** So does a tail, of as many as were asked for and are retained; it owns up exactly
      when it shows all that is retained, and then in full. */
  lemma TailShowsTheNewest(history: seq<Entry>, n: nat)
    ensures var shown := Shown(TailOf(history, n));
            && |shown| == Min(n, Min(|history|, MAX_ENTRIES)) && shown == history[|history| - |shown|..]
            && OwnedUp(TailOf(history, n)) == if |shown| == MAX_ENTRIES then |history| - |shown| else 0
  {
    var notice :=
      if |history| > MAX_ENTRIES && n >= MAX_ENTRIES then [DropNotice(|history| - MAX_ENTRIES)] else [];
    HeadedLines(notice, Last(history, Min(n, MAX_ENTRIES)));
  }

  class Evidence {
    var entries: seq<Entry>
    var dropped: nat

    /** Every entry ever recorded. */
    ghost var history: seq<Entry>

    ghost predicate Valid()
      reads this
    {
      Log(entries, dropped) == PushAll(history)
    }

    constructor ()
      ensures Valid() && history == []
    {
      entries, dropped, history := [], 0, [];
    }

    method Record(entry: Entry)
      requires Valid()
      modifies this
      ensures Valid() && history == old(history) + [entry]
      ensures Log(entries, dropped) == Push(old(Log(entries, dropped)), entry)
    {
      if |entries| >= MAX_ENTRIES {
        entries := entries[1..];
        dropped := dropped + 1;
      }
      entries := entries + [entry];
      assert (history + [entry])[..|history|] == history;
      history := history + [entry];
    }

    method IsEmpty() returns (empty: bool)
      requires Valid()
      ensures empty <==> history == []
    {
      LogIsTheLastEntries(history);
      return |entries| == 0;
    }

    /** The formatting loop: one line per entry from index `skip` on, after `head`. */
    method Format(head: seq<Line>, skip: nat) returns (out: seq<Line>)
      requires skip <= |entries|
      ensures out == head + Lines(entries[skip..])
    {
      out := head;
      var k := skip;
      while k < |entries|
        invariant skip <= k <= |entries|
        invariant out == head + Lines(entries[skip..k])
      {
        assert entries[skip..k + 1] == entries[skip..k] + [entries[k]];
        out := out + [EntryLine(entries[k])];
        k := k + 1;
      }
      assert entries[skip..k] == entries[skip..];
    }

    /** The last `n` lines, for display under a failure. */
    method Tail(n: nat) returns (out: seq<Line>)
      requires Valid()
      ensures out == TailOf(history, n)
    {
      LogIsTheLastEntries(history);
      TailOfLog(history, n, Log(entries, dropped));
      var skip := if |entries| > n then |entries| - n else 0;
      out := if dropped > 0 && skip == 0 then [DropNotice(dropped)] else [];
      out := Format(out, skip);
    }

    /** The persisted log never reads as complete when it is not. */
    method Persist() returns (out: seq<Line>)
      requires Valid()
      ensures out == FileOf(history)
    {
      LogIsTheLastEntries(history);
      out := if dropped > 0 then [DropNotice(dropped)] else [];
      assert entries[0..] == entries;
      out := Format(out, 0);
    }
  }

  // ---------------------------------------------------------------------
  // File names.
  // ---------------------------------------------------------------------

  predicate SafeChar(c: char) {
    'a' <= c <= 'z' || 'A' <= c <= 'Z' || '0' <= c <= '9' || c == '-' || c == '_'
  }

  /** A test path as one file-name component: every unsafe character becomes `_`. */
  function Sanitize(test: string): (name: string)
    ensures |name| == |test| && forall k :: 0 <= k < |name| ==> SafeChar(name[k])
    ensures forall k :: 0 <= k < |name| ==> name[k] == test[k] || (name[k] == '_' && !SafeChar(test[k]))
  {
    seq(|test|, (k: nat) requires k < |test| => if SafeChar(test[k]) then test[k] else '_')
  }

  /** The ASCII letters and digits, the hyphen and the underscore, by their codes. */
  predicate PlainCode(k: int) {
    0x41 <= k <= 0x5A || 0x61 <= k <= 0x7A || 0x30 <= k <= 0x39 || k == 0x2D || k == 0x5F
  }

  /** A sanitized name is one component: of those characters alone, so without
      separators, colons or dots, and it is the test's own path exactly if that was
      already so. */
  lemma SanitizedIsOneComponent(test: string)
    ensures forall k :: 0 <= k < |Sanitize(test)| ==> PlainCode(Sanitize(test)[k] as int)
    ensures forall c :: c in {'/', '\\', ':', '.'} ==> c !in Sanitize(test)
    ensures Sanitize(test) == test <==> forall k :: 0 <= k < |test| ==> PlainCode(test[k] as int)
    ensures Sanitize("suite/case:1") == "suite_case_1"
  {
    assert Sanitize(test) != test ==> exists k :: 0 <= k < |test| && Sanitize(test)[k] != test[k];
  }
}
