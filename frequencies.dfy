/**
  Frequency discovery: the capability file's content split into entries
  (`getAvailableCPUFrequencies`) and the running minimum and maximum over the
  entries that parse as integers (the second loop of `scaleCPUFrequency`).
*/
module Frequencies {
  import opened Options
  import opened Decimal

  /** The starting values of the running minimum and maximum. */
  const MinSentinel: int := 10000000
  const MaxSentinel: int := 0

  datatype FrequencyRange = FrequencyRange(min: int, max: int)

  const Initial: FrequencyRange := FrequencyRange(MinSentinel, MaxSentinel)

  /** `strings.Split(s, " ")`: the pieces between single spaces; `n` spaces give `n + 1` pieces. */
  function Split(s: string): (pieces: seq<string>)
    ensures |pieces| >= 1
    ensures forall i :: 0 <= i < |pieces| ==> ' ' !in pieces[i]
  {
    if s == [] then [[]]
    else
      var rest := Split(s[1..]);
      if s[0] == ' ' then [[]] + rest
      else [[s[0]] + rest[0]] + rest[1..]
  }

  /** `strings.Join(pieces, " ")`. */
  function Join(pieces: seq<string>): string
  {
    if pieces == [] then []
    else if |pieces| == 1 then pieces[0]
    else pieces[0] + " " + Join(pieces[1..])
  }

  /**
    `getAvailableCPUFrequencies` on the content its `readFile` returned: no
    entries for empty content, otherwise the content split on single spaces
    (not on newlines), and joining the entries back gives the content.
  */
  function AvailableFrequencies(content: string): (entries: seq<string>)
    ensures content == [] ==> entries == []
    ensures content != [] ==> |entries| >= 1 && Join(entries) == content
    ensures forall i :: 0 <= i < |entries| ==> ' ' !in entries[i]
  {
    if content == [] then [] else JoinSplit(content); Split(content)
  }

  /** One step of the discovery loop: an entry that parses may lower the minimum and raise the maximum. */
  function Observe(r: FrequencyRange, entry: string): FrequencyRange
  {
    match Atoi(entry)
    case None => r
    case Some(f) => FrequencyRange(if f < r.min then f else r.min, if f > r.max then f else r.max)
  }

  /** The range the discovery loop ends with, entry by entry from the sentinels. */
  function RangeOf(entries: seq<string>): FrequencyRange
  {
    if entries == [] then Initial else Observe(RangeOf(entries[..|entries| - 1]), entries[|entries| - 1])
  }

  /** True when `f` is the parsed value of some entry. */
  predicate Parsed(entries: seq<string>, f: int)
  {
    exists i :: 0 <= i < |entries| && Atoi(entries[i]) == Some(f)
  }

  /** The discovery loop of `scaleCPUFrequency`. */
  method DiscoverRange(entries: seq<string>) returns (minF: int, maxF: int)
    ensures FrequencyRange(minF, maxF) == RangeOf(entries)
  {
    minF, maxF := MinSentinel, MaxSentinel;
    for i := 0 to |entries|
      invariant FrequencyRange(minF, maxF) == RangeOf(entries[..i])
    {
      assert entries[..i + 1][..i] == entries[..i];
      var parsed := Atoi(entries[i]);
      if parsed.Some? {
        var f := parsed.value;
        if f > maxF {
          maxF := f;
        }
        if f < minF {
          minF := f;
        }
      }
    }
    assert entries[..|entries|] == entries;
  }

  // ---------------------------------------------------------------------------
  // Properties of splitting

  lemma {:induction false} JoinSplit(s: string)
    ensures Join(Split(s)) == s
  {
    if s != [] {
      var rest := Split(s[1..]);
      JoinSplit(s[1..]);
      if s[0] == ' ' {
        assert ([[]] + rest)[1..] == rest;
      } else if |rest| > 1 {
        assert ([[s[0]] + rest[0]] + rest[1..])[1..] == rest[1..];
        assert Join(rest) == rest[0] + " " + Join(rest[1..]);
      }
    }
  }

  /** Splitting text that starts with a space-free prefix: the prefix joins the first piece. */
  lemma {:induction false} SplitAfterWord(a: string, t: string)
    requires ' ' !in a
    ensures Split(a + t) == [a + Split(t)[0]] + Split(t)[1..]
  {
    if a != [] {
      assert (a + t)[1..] == a[1..] + t;
      SplitAfterWord(a[1..], t);
      assert [a[0]] + (a[1..] + Split(t)[0]) == a + Split(t)[0];
    } else {
      assert a + t == t;
      assert [] + Split(t)[0] == Split(t)[0];
      assert [Split(t)[0]] + Split(t)[1..] == Split(t);
    }
  }

  /** Space-free pieces come back unchanged from joining and splitting again. */
  lemma {:induction false} SplitJoin(pieces: seq<string>)
    requires |pieces| >= 1
    requires forall i :: 0 <= i < |pieces| ==> ' ' !in pieces[i]
    ensures Split(Join(pieces)) == pieces
  {
    if |pieces| == 1 {
      SplitAfterWord(pieces[0], []);
      assert pieces[0] + [] == pieces[0];
      assert Split([]) == [[]];
      assert pieces == [pieces[0]];
    } else {
      var tail := Join(pieces[1..]);
      SplitJoin(pieces[1..]);
      assert pieces[0] + " " + tail == pieces[0] + (" " + tail);
      assert (" " + tail)[1..] == tail;
      assert Split(" " + tail) == [[]] + pieces[1..];
      SplitAfterWord(pieces[0], " " + tail);
      assert pieces[0] + [] == pieces[0];
      assert [pieces[0]] + pieces[1..] == pieces;
    }
  }

  /** The number of times `c` occurs in `s`. */
  function Occurrences(s: string, c: char): nat
  {
    if s == [] then 0 else (if s[0] == c then 1 else 0) + Occurrences(s[1..], c)
  }

  /** `n` spaces give `n + 1` pieces. */
  lemma {:induction false} SplitCount(s: string)
    ensures |Split(s)| == Occurrences(s, ' ') + 1
  {
    if s != [] {
      SplitCount(s[1..]);
    }
  }

  // ---------------------------------------------------------------------------
  // Properties of the discovery loop

  /** Every entry that parses lies within the range, and the range never passes its sentinels. */
  lemma {:induction false} RangeBounds(entries: seq<string>)
    ensures RangeOf(entries).min <= MinSentinel && RangeOf(entries).max >= MaxSentinel
    ensures forall i :: 0 <= i < |entries| && Atoi(entries[i]).Some? ==>
      RangeOf(entries).min <= Atoi(entries[i]).value <= RangeOf(entries).max
  {
    if entries != [] {
      var init := entries[..|entries| - 1];
      RangeBounds(init);
      forall i | 0 <= i < |entries| - 1
        ensures entries[i] == init[i]
      {
      }
    }
  }

  /** Each end of the range is either its sentinel or the value of an entry that parses. */
  lemma {:induction false} RangeAttained(entries: seq<string>)
    ensures RangeOf(entries).min == MinSentinel || Parsed(entries, RangeOf(entries).min)
    ensures RangeOf(entries).max == MaxSentinel || Parsed(entries, RangeOf(entries).max)
  {
    if entries != [] {
      var n := |entries| - 1;
      var init := entries[..n];
      RangeAttained(init);
      var r := RangeOf(init);
      if r.min != MinSentinel && RangeOf(entries).min == r.min {
        var i :| 0 <= i < |init| && Atoi(init[i]) == Some(r.min);
        assert entries[i] == init[i];
      }
      if r.max != MaxSentinel && RangeOf(entries).max == r.max {
        var i :| 0 <= i < |init| && Atoi(init[i]) == Some(r.max);
        assert entries[i] == init[i];
      }
    }
  }

  /** When nothing parses (in particular for an empty list) the sentinels come out unchanged. */
  lemma {:induction false} RangeOfNothing(entries: seq<string>)
    requires forall i :: 0 <= i < |entries| ==> Atoi(entries[i]) == None
    ensures RangeOf(entries) == FrequencyRange(MinSentinel, MaxSentinel)
  {
    if entries != [] {
      var init := entries[..|entries| - 1];
      assert forall i :: 0 <= i < |init| ==> init[i] == entries[i];
      RangeOfNothing(init);
    }
  }

  /**
    When at least one entry parses and every parsed value lies between the
    sentinels (0 and 10000000), the minimum and maximum are reported entries
    and the minimum does not exceed the maximum.
  */
  lemma RangeDrawnFromEntries(entries: seq<string>, k: nat)
    requires k < |entries| && Atoi(entries[k]).Some?
    requires forall i :: 0 <= i < |entries| && Atoi(entries[i]).Some? ==>
      MaxSentinel <= Atoi(entries[i]).value <= MinSentinel
    ensures Parsed(entries, RangeOf(entries).min) && Parsed(entries, RangeOf(entries).max)
    ensures RangeOf(entries).min <= RangeOf(entries).max
  {
    RangeBounds(entries);
    RangeAttained(entries);
    var f := Atoi(entries[k]).value;
    assert RangeOf(entries).min <= f <= RangeOf(entries).max;
    if RangeOf(entries).min == MinSentinel {
      assert f == MinSentinel;
    }
    if RangeOf(entries).max == MaxSentinel {
      assert f == MaxSentinel;
    }
  }

  /** An entry that does not parse, wherever it stands, has no effect on the range. */
  lemma {:induction false} RangeIgnoresUnparsable(before: seq<string>, junk: string, after: seq<string>)
    requires Atoi(junk) == None
    ensures RangeOf(before + [junk] + after) == RangeOf(before + after)
  {
    if after == [] {
      assert before + [junk] + after == before + [junk];
      assert (before + [junk])[..|before|] == before;
      assert before + after == before;
    } else {
      var last := after[|after| - 1];
      var init := after[..|after| - 1];
      RangeIgnoresUnparsable(before, junk, init);
      assert (before + [junk] + after)[..|before + [junk] + after| - 1] == before + [junk] + init;
      assert (before + after)[..|before + after| - 1] == before + init;
    }
  }
}
