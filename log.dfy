/**
 * The bounded buffer of recent log entries (augs/log.cpp). The source keeps it in static
 * members of `global_log`; here it is an object with the same two members.
 */
module Log {
  import opened Ints

  /** Console colours; only WHITE, the colour of plain LOG, is named by the core. */
  datatype ConsoleColor = White | OtherColor(code: nat)

  datatype LogEntry = LogEntry(color: ConsoleColor, text: string)

  const DEFAULT_MAX_ENTRIES: nat := 40

  class GlobalLog {
    var maxEntries: nat
    var recentEntries: seq<LogEntry>

    ghost predicate Valid()
      reads this
    {
      maxEntries > 0 && |recentEntries| <= maxEntries
    }

    constructor ()
      ensures Valid() && maxEntries == DEFAULT_MAX_ENTRIES && recentEntries == []
    {
      maxEntries := DEFAULT_MAX_ENTRIES;
      recentEntries := [];
    }

    /**
     * Appends the entry; if that makes the buffer longer than `max_entries`, erases the
     * oldest one. The newest entry is always last and the survivors keep their order.
     */
    method PushEntry(newEntry: LogEntry)
      requires Valid()
      modifies this`recentEntries
      ensures Valid()
      ensures recentEntries == if |old(recentEntries)| + 1 > maxEntries
                               then old(recentEntries)[1..] + [newEntry]
                               else old(recentEntries) + [newEntry]
      ensures recentEntries[|recentEntries| - 1] == newEntry
      ensures |recentEntries| == Min(|old(recentEntries)| + 1, maxEntries)
    {
      recentEntries := recentEntries + [newEntry];
      if |recentEntries| > maxEntries {
        recentEntries := recentEntries[1..];
      }
    }

    /** `LOG(f)`: pushes a WHITE entry (console and file output are not modelled). */
    method LogWhite(text: string)
      requires Valid()
      modifies this`recentEntries
      ensures Valid() && |recentEntries| > 0 && recentEntries[|recentEntries| - 1] == LogEntry(White, text)
      ensures recentEntries[..|recentEntries| - 1] == Suffix(old(recentEntries), maxEntries - 1)
    {
      PushEntry(LogEntry(White, text));
    }

    /** `LOG_COLOR(c, f)`: pushes an entry with the given colour. */
    method LogColor(c: ConsoleColor, text: string)
      requires Valid()
      modifies this`recentEntries
      ensures Valid() && |recentEntries| > 0 && recentEntries[|recentEntries| - 1] == LogEntry(c, text)
      ensures recentEntries[..|recentEntries| - 1] == Suffix(old(recentEntries), maxEntries - 1)
    {
      PushEntry(LogEntry(c, text));
    }
  }

  /** The last `n` elements of `s` (all of `s` when it is shorter). */
  function Suffix<T>(s: seq<T>, n: nat): (r: seq<T>)
    ensures |r| == Min(|s|, n)
    ensures forall k :: 0 <= k < |r| ==> r[k] == s[|s| - |r| + k]
  {
    if |s| <= n then s else s[|s| - n..]
  }

  /**
   * After any number of pushes into a buffer of capacity `cap`, its contents are exactly the
   * last `cap` entries ever pushed (starting from `start`), oldest first.
   */
  function PushAll(start: seq<LogEntry>, pushed: seq<LogEntry>, cap: nat): seq<LogEntry>
    requires cap > 0 && |start| <= cap
    decreases |pushed|
  {
    if pushed == [] then start
    else
      var s := start + [pushed[0]];
      PushAll(if |s| > cap then s[1..] else s, pushed[1..], cap)
  }

  lemma {:induction false} PushAllKeepsLastEntries(start: seq<LogEntry>, pushed: seq<LogEntry>, cap: nat)
    requires cap > 0 && |start| <= cap
    ensures PushAll(start, pushed, cap) == Suffix(start + pushed, cap)
    decreases |pushed|
  {
    if pushed != [] {
      var s := start + [pushed[0]];
      var next := if |s| > cap then s[1..] else s;
      PushAllKeepsLastEntries(next, pushed[1..], cap);
      assert start + pushed == s + pushed[1..];
      if |s| > cap {
        assert s == [s[0]] + next;
        assert s + pushed[1..] == [s[0]] + (next + pushed[1..]);
      }
    }
  }
}
