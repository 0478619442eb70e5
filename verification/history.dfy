/**
 * A channel's history file as the hub keeps it: opened for appending, one
 * record's raw text per line, read back whole and split with Python's
 * `str.splitlines`.
 */
module History {

  /** The line boundaries `str.splitlines` recognises; "\r\n" counts as one boundary. */
  predicate IsLineBreak(ch: char) {
    || ch == '\n' || ch == '\r' || ch == '\U{0B}' || ch == '\U{0C}'
    || ch == '\U{1C}' || ch == '\U{1D}' || ch == '\U{1E}'
    || ch == '\U{85}' || ch == '\U{2028}' || ch == '\U{2029}'
  }

  predicate NoBreaks(s: string) {
    forall j :: 0 <= j < |s| ==> !IsLineBreak(s[j])
  }

  /** Index of the first line boundary in `s`, or `|s|` when there is none. */
  function FirstBreak(s: string): (i: nat)
    ensures i <= |s|
    ensures i < |s| ==> IsLineBreak(s[i])
    ensures forall j :: 0 <= j < i ==> !IsLineBreak(s[j])
  {
    if s == [] then 0
    else if IsLineBreak(s[0]) then 0
    else 1 + FirstBreak(s[1..])
  }

  /** Where the line after a boundary at `i` starts: "\r\n" is one boundary, any other break is one character. */
  function BreakEnd(s: string, i: nat): (next: nat)
    requires i < |s|
    ensures i < next <= |s|
  {
    if s[i] == '\r' && i + 1 < |s| && s[i + 1] == '\n' then i + 2 else i + 1
  }

  /** `s.splitlines()`: the lines of `s` without their terminators; a final terminator opens no empty line. */
  function Lines(s: string): seq<string>
    decreases |s|
  {
    if s == [] then []
    else
      var i := FirstBreak(s);
      if i == |s| then [s] else [s[..i]] + Lines(s[BreakEnd(s, i)..])
  }

  /** A log every write of which has been completed: empty, or ending in the "\n" each write adds. */
  predicate Complete(log: string) {
    log == [] || log[|log| - 1] == '\n'
  }

  /** `file.write(f"{raw}\n")` on a file opened in append mode. */
  function Append(log: string, raw: string): (r: string)
    ensures Complete(r)
    ensures |r| == |log| + |raw| + 1 && r[..|log|] == log
    ensures r[|log|..|log| + |raw|] == raw && r[|r| - 1] == '\n'
  {
    log + raw + "\n"
  }

  lemma FirstBreakOfPrefix(f: string, t: string)
    requires FirstBreak(f) < |f|
    ensures FirstBreak(f + t) == FirstBreak(f)
  {
    var i, k := FirstBreak(f), FirstBreak(f + t);
    assert (f + t)[i] == f[i];
    if k < i {
      assert (f + t)[k] == f[k];
    }
  }

  /** The first boundary of a complete log is where it is in the log followed by anything. */
  lemma BreakOfPrefix(f: string, t: string)
    requires f != [] && Complete(f)
    ensures FirstBreak(f) < |f|
    ensures FirstBreak(f + t) == FirstBreak(f)
    ensures BreakEnd(f + t, FirstBreak(f)) == BreakEnd(f, FirstBreak(f))
  {
    var i := FirstBreak(f);
    assert IsLineBreak(f[|f| - 1]);
    FirstBreakOfPrefix(f, t);
    assert (f + t)[i] == f[i];
    if i + 1 < |f| {
      assert (f + t)[i + 1] == f[i + 1];
    }
  }

  /** Splitting distributes over a complete log followed by anything. */
  lemma {:induction false} LinesOfConcat(f: string, t: string)
    requires Complete(f)
    ensures Lines(f + t) == Lines(f) + Lines(t)
    decreases |f|
  {
    if f == [] {
      assert f + t == t;
    } else {
      BreakOfPrefix(f, t);
      var i := FirstBreak(f);
      var next := BreakEnd(f, i);
      var ft := f + t;
      assert ft[..i] == f[..i];
      assert ft[next..] == f[next..] + t;
      LinesOfConcat(f[next..], t);
      calc {
        Lines(ft);
        [f[..i]] + Lines(f[next..] + t);
        [f[..i]] + (Lines(f[next..]) + Lines(t));
        ([f[..i]] + Lines(f[next..])) + Lines(t);
      }
    }
  }

  /** A break-free record followed by "\n" reads back as exactly that one line. */
  lemma LinesOfRecord(raw: string)
    requires NoBreaks(raw)
    ensures Lines(raw + "\n") == [raw]
  {
    var s := raw + "\n";
    assert FirstBreak(s) == |raw| by {
      var k := FirstBreak(s);
      assert IsLineBreak(s[|raw|]);
    }
    assert s[..|raw|] == raw;
    assert s[|raw| + 1..] == [];
  }

  /**
   * History order: appending a record to a complete log adds exactly that
   * record at the end of what a later read returns, and keeps the log complete.
   */
  lemma AppendThenRead(log: string, raw: string)
    requires Complete(log) && NoBreaks(raw)
    ensures Lines(Append(log, raw)) == Lines(log) + [raw]
  {
    assert Append(log, raw) == log + (raw + "\n");
    LinesOfConcat(log, raw + "\n");
    LinesOfRecord(raw);
  }

  /** Appends one record after another, in arrival order. */
  function AppendAll(log: string, raws: seq<string>): (r: string)
    decreases |raws|
  {
    if raws == [] then log else Append(AppendAll(log, raws[..|raws| - 1]), raws[|raws| - 1])
  }

  /** Appending N records and reading yields the earlier lines, then those N records in order. */
  lemma {:induction false} AppendAllThenRead(log: string, raws: seq<string>)
    requires Complete(log)
    requires forall k :: 0 <= k < |raws| ==> NoBreaks(raws[k])
    ensures Lines(AppendAll(log, raws)) == Lines(log) + raws
    decreases |raws|
  {
    if raws != [] {
      var init, last := raws[..|raws| - 1], raws[|raws| - 1];
      assert raws == init + [last];
      var before := AppendAll(log, init);
      assert Lines(before) == Lines(log) + init && Complete(before) by {
        AppendAllThenRead(log, init);
      }
      assert Lines(AppendAll(log, raws)) == Lines(before) + [last] by {
        assert NoBreaks(last);
        AppendThenRead(before, last);
      }
    }
  }
}
