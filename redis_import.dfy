/**
 * The importer (redis-import.py): every line of the rewrite map that is not
 * ignored is split into a source and a target, a progress line is printed,
 * and the store is SET at the raw source token (no namespace prefix). A line
 * that does not split into exactly two tokens raises from the tuple
 * unpacking and ends the run; what was written before stays written.
 */
module RedisImport {
  import opened PyText
  import opened RedisStore

  // ---------------------------------------------------------------------------
  // One line

  /**
   * Where `$` (no MULTILINE flag) can match: at the end of the line, or just
   * before a newline that is the line's last character.
   */
  predicate EndAnchorAt(line: string, pos: nat)
  {
    pos == |line| || (pos + 1 == |line| && line[pos] == '\n')
  }

  /**
   * `re.match('^\s$|^\#', line)`: the match is anchored at the start; the
   * first alternative is one whitespace character followed by `$`, the second
   * a literal `#`. The lines it ignores are exactly: a line starting with `#`,
   * and a single whitespace character optionally followed by the newline.
   */
  predicate IsIgnored(line: string)
    ensures IsIgnored(line) <==>
              (|line| >= 1 && line[0] == '#')
              || (|line| == 1 && IsSpace(line[0]))
              || (|line| == 2 && IsSpace(line[0]) && line[1] == '\n')
  {
    (|line| >= 1 && IsSpace(line[0]) && EndAnchorAt(line, 1))
    || (|line| >= 1 && line[0] == '#')
  }

  /** What the loop body does with one line. */
  datatype LineAction =
    | Skip
    | Write(source: string, target: string)
    | Malformed(tokenCount: nat)

  function Classify(line: string): (a: LineAction)
    ensures a.Skip? <==> IsIgnored(line)
    ensures a.Write? ==> Split(line) == [a.source, a.target]
    ensures a.Malformed? ==> !IsIgnored(line) && a.tokenCount == |Split(line)| != 2
  {
    if IsIgnored(line) then Skip
    else
      var tokens := Split(line);
      if |tokens| == 2 then Write(tokens[0], tokens[1]) else Malformed(|tokens|)
  }

  /** The text of `print "source: %s target: %s" % (source, target)`. */
  function ProgressLine(source: string, target: string): string
  {
    "source: " + source + " target: " + target
  }

  /**
   * The progress line names the pair it is about to write: split on
   * whitespace it reads back as `source:`, the source, `target:`, the target.
   */
  lemma ProgressLineNamesPair(source: string, target: string)
    requires IsToken(source) && IsToken(target)
    ensures Split(ProgressLine(source, target)) == ["source:", source, "target:", target]
  {
    var ts := ["source:", source, "target:", target];
    assert IsToken("source:") && IsToken("target:");
    assert Join(ts[3..]) == target;
    assert Join(ts[2..]) == "target:" + " " + target;
    assert Join(ts[1..]) == source + " " + ("target:" + " " + target);
    assert Join(ts) == ProgressLine(source, target);
    assert AllSpace("") && Join(ts) + "" == Join(ts);
    SplitJoin(ts, "");
  }

  /**
   * A line made of two tokens is stored as written: the raw first token is
   * the key, the second the value, whatever whitespace ends the line.
   */
  lemma ValidLineWritesRawTokens(source: string, target: string, trail: string)
    requires IsToken(source) && IsToken(target) && source[0] != '#'
    requires AllSpace(trail)
    ensures Classify(source + " " + target + trail) == Write(source, target)
  {
    var line := source + " " + target + trail;
    assert Join([source, target]) == source + " " + target;
    SplitJoin([source, target], trail);
    assert line[0] == source[0];
  }

  /**
   * A blank line of two or more whitespace characters is not ignored: it
   * splits into no token and so is malformed.
   */
  lemma BlankRunIsMalformed(w: string)
    requires |w| >= 2 && AllSpace(w)
    ensures Classify(w + "\n") == Malformed(0)
  {
    var line := w + "\n";
    assert line[0] == w[0];
    assert AllSpace(line);
  }

  /** A line holding one token is malformed: the unpacking gets one value. */
  lemma OneTokenIsMalformed(w: string, trail: string)
    requires IsToken(w) && w[0] != '#'
    requires AllSpace(trail)
    ensures Classify(w + trail) == Malformed(1)
  {
    assert Join([w]) == w;
    SplitJoin([w], trail);
    assert (w + trail)[0] == w[0];
  }

  // ---------------------------------------------------------------------------
  // The whole file: a left fold over its lines

  /** How a run ends: after the last line, or at the first malformed one. */
  datatype Status = Completed | Aborted(lineIndex: nat, tokenCount: nat)

  /** The store, what was printed so far, and whether the run is still going. */
  datatype ImportState = ImportState(store: map<string, string>, printed: seq<string>, status: Status)

  /**
   * The loop body for line number `index`: only a written line changes the
   * store, and only at its source; it alone prints, one progress line naming
   * the pair; only a malformed line changes the status, to an abort there.
   */
  function Step(st: ImportState, index: nat, line: string): (r: ImportState)
    ensures forall key :: !WritesKey(line, key) ==>
              (key in r.store <==> key in st.store) && (key in st.store ==> r.store[key] == st.store[key])
    ensures Classify(line).Write? ==>
              var a := Classify(line);
              a.source in r.store && r.store[a.source] == a.target
              && r.printed == st.printed + [ProgressLine(a.source, a.target)]
    ensures !Classify(line).Write? ==> r.printed == st.printed
    ensures r.status == st.status || (Classify(line).Malformed? && r.status == Aborted(index, Classify(line).tokenCount))
  {
    match Classify(line)
    case Skip => st
    case Write(s, t) => ImportState(st.store[s := t], st.printed + [ProgressLine(s, t)], st.status)
    case Malformed(n) => ImportState(st.store, st.printed, Aborted(index, n))
  }

  /** The import of `lines` into a store holding `initial`. */
  function ImportFold(initial: map<string, string>, lines: seq<string>): (r: ImportState)
    ensures |r.printed| <= |lines|
    ensures r.status.Aborted? ==> r.status.lineIndex < |lines|
    decreases |lines|
  {
    if lines == [] then ImportState(initial, [], Completed)
    else
      var prev := ImportFold(initial, lines[..|lines| - 1]);
      if prev.status.Aborted? then prev
      else Step(prev, |lines| - 1, lines[|lines| - 1])
  }

  /** Line `j` is executed: no line before it is malformed. */
  predicate Reached(lines: seq<string>, j: nat)
  {
    j < |lines| && forall i :: 0 <= i < j ==> !Classify(lines[i]).Malformed?
  }

  /** The line sets `key`. */
  predicate WritesKey(line: string, key: string)
  {
    Classify(line).Write? && Classify(line).source == key
  }

  /** The number of lines among `lines` that would be written. */
  function CountWrites(lines: seq<string>): nat
  {
    if lines == [] then 0
    else CountWrites(lines[..|lines| - 1]) + (if Classify(lines[|lines| - 1]).Write? then 1 else 0)
  }

  // ---------------------------------------------------------------------------
  // Properties of the import

  /** The run completes exactly when no line is malformed. */
  lemma {:induction false} CompletedIffWellFormed(initial: map<string, string>, lines: seq<string>)
    ensures ImportFold(initial, lines).status == Completed
            <==> forall i :: 0 <= i < |lines| ==> !Classify(lines[i]).Malformed?
    decreases |lines|
  {
    if lines != [] {
      var init := lines[..|lines| - 1];
      CompletedIffWellFormed(initial, init);
      assert forall i :: 0 <= i < |init| ==> init[i] == lines[i];
    }
  }

  /** Once the run has aborted, later lines are never looked at. */
  lemma {:induction false} AbortIsFinal(initial: map<string, string>, lines: seq<string>, k: nat)
    requires k <= |lines|
    requires ImportFold(initial, lines[..k]).status.Aborted?
    ensures ImportFold(initial, lines) == ImportFold(initial, lines[..k])
    decreases |lines| - k
  {
    if k == |lines| {
      assert lines[..k] == lines;
    } else {
      var init := lines[..|lines| - 1];
      assert init[..k] == lines[..k];
      AbortIsFinal(initial, init, k);
    }
  }

  /**
   * An aborted run stops at its first malformed line and leaves the store
   * and the output exactly as the lines before it made them.
   */
  lemma {:induction false} AbortKeepsEarlierWrites(initial: map<string, string>, lines: seq<string>)
    ensures var r := ImportFold(initial, lines);
            r.status.Aborted? ==>
              var i := r.status.lineIndex;
              Reached(lines, i)
              && Classify(lines[i]) == Malformed(r.status.tokenCount)
              && ImportFold(initial, lines[..i]) == ImportState(r.store, r.printed, Completed)
    decreases |lines|
  {
    if lines != [] {
      var init := lines[..|lines| - 1];
      var prev := ImportFold(initial, init);
      AbortKeepsEarlierWrites(initial, init);
      if prev.status.Aborted? {
        var i := prev.status.lineIndex;
        assert init[..i] == lines[..i];
        assert forall j :: 0 <= j <= i ==> init[j] == lines[j];
      } else {
        CompletedIffWellFormed(initial, init);
        assert forall j :: 0 <= j < |init| ==> init[j] == lines[j];
      }
    }
  }

  /** A file of nothing but ignored lines writes and prints nothing. */
  lemma {:induction false} IgnoredLinesWriteNothing(initial: map<string, string>, lines: seq<string>)
    requires forall i :: 0 <= i < |lines| ==> IsIgnored(lines[i])
    ensures ImportFold(initial, lines) == ImportState(initial, [], Completed)
    decreases |lines|
  {
    if lines != [] {
      var init := lines[..|lines| - 1];
      assert forall i :: 0 <= i < |init| ==> init[i] == lines[i];
      IgnoredLinesWriteNothing(initial, init);
    }
  }

  /**
   * Last write wins: the store ends with the target of the last executed
   * line whose source is `s`.
   */
  lemma {:induction false} LastWriteWins(initial: map<string, string>, lines: seq<string>, j: nat, s: string, t: string)
    requires Reached(lines, j)
    requires Classify(lines[j]) == Write(s, t)
    requires forall k :: j < k < |lines| && Reached(lines, k) ==> !WritesKey(lines[k], s)
    ensures var r := ImportFold(initial, lines);
            s in r.store && r.store[s] == t
    decreases |lines|
  {
    var last := |lines| - 1;
    var init := lines[..last];
    var prev := ImportFold(initial, init);
    assert forall i :: 0 <= i < |init| ==> init[i] == lines[i];
    if j == last {
      CompletedIffWellFormed(initial, init);
    } else {
      forall k | j < k < |init| && Reached(init, k)
        ensures !WritesKey(init[k], s)
      {
        assert Reached(lines, k);
      }
      LastWriteWins(initial, init, j, s, t);
      if !prev.status.Aborted? {
        CompletedIffWellFormed(initial, init);
        assert Reached(lines, last);
      }
    }
  }

  /** A key that no line writes keeps its value, or stays absent. */
  lemma {:induction false} UnwrittenKeyUnchanged(initial: map<string, string>, lines: seq<string>, key: string)
    requires forall i :: 0 <= i < |lines| ==> !WritesKey(lines[i], key)
    ensures var r := ImportFold(initial, lines);
            (key in r.store <==> key in initial)
            && (key in initial ==> r.store[key] == initial[key])
    decreases |lines|
  {
    if lines != [] {
      var init := lines[..|lines| - 1];
      assert forall i :: 0 <= i < |init| ==> init[i] == lines[i];
      UnwrittenKeyUnchanged(initial, init, key);
      assert !WritesKey(lines[|lines| - 1], key);
    }
  }

  /**
   * Every value the run put in the store came from an executed line whose
   * source is the key and whose target is the value.
   */
  lemma {:induction false} StoredValueWasWritten(initial: map<string, string>, lines: seq<string>, key: string)
    requires var r := ImportFold(initial, lines);
             key in r.store && (key !in initial || r.store[key] != initial[key])
    ensures var r := ImportFold(initial, lines);
            exists j: nat :: Reached(lines, j) && Classify(lines[j]) == Write(key, r.store[key])
    decreases |lines|
  {
    var r := ImportFold(initial, lines);
    var init := lines[..|lines| - 1];
    var prev := ImportFold(initial, init);
    assert forall i :: 0 <= i < |init| ==> init[i] == lines[i];
    if key in prev.store && (key !in initial || prev.store[key] != initial[key]) && prev.store[key] == r.store[key] {
      StoredValueWasWritten(initial, init, key);
      var j: nat :| Reached(init, j) && Classify(init[j]) == Write(key, prev.store[key]);
      assert Reached(lines, j);
    } else {
      var j := |lines| - 1;
      CompletedIffWellFormed(initial, init);
      assert Reached(lines, j);
    }
  }

  /** Output is only ever appended to. */
  lemma {:induction false} PrintedGrows(initial: map<string, string>, lines: seq<string>, k: nat)
    requires k <= |lines|
    ensures ImportFold(initial, lines[..k]).printed <= ImportFold(initial, lines).printed
    decreases |lines| - k
  {
    if k == |lines| {
      assert lines[..k] == lines;
    } else {
      var init := lines[..|lines| - 1];
      assert init[..k] == lines[..k];
      PrintedGrows(initial, init, k);
    }
  }

  /** A completed run printed one progress line per written line. */
  lemma {:induction false} PrintedOnePerWrite(initial: map<string, string>, lines: seq<string>)
    requires ImportFold(initial, lines).status == Completed
    ensures |ImportFold(initial, lines).printed| == CountWrites(lines)
    decreases |lines|
  {
    if lines != [] {
      PrintedOnePerWrite(initial, lines[..|lines| - 1]);
    }
  }

  /**
   * The progress line of an executed write names its source and target and
   * comes after the progress lines of the writes before it.
   */
  lemma PrintedAtWrite(initial: map<string, string>, lines: seq<string>, j: nat, s: string, t: string)
    requires Reached(lines, j)
    requires Classify(lines[j]) == Write(s, t)
    ensures var r := ImportFold(initial, lines);
            CountWrites(lines[..j]) < |r.printed|
            && r.printed[CountWrites(lines[..j])] == ProgressLine(s, t)
  {
    var before := lines[..j];
    var upTo := lines[..j + 1];
    assert upTo[..j] == before;
    assert forall i :: 0 <= i < j ==> before[i] == lines[i];
    CompletedIffWellFormed(initial, before);
    PrintedOnePerWrite(initial, before);
    PrintedGrows(initial, lines, j + 1);
  }

  // ---------------------------------------------------------------------------
  // The script's loop

  /**
   * `for line in my_file`: skip ignored lines, unpack the split into
   * (source, target), print progress, SET. A malformed line ends the run.
   */
  method Import(store: Store, lines: seq<string>) returns (printed: seq<string>, status: Status)
    modifies store
    ensures var r := ImportFold(old(store.entries), lines);
            store.entries == r.store && printed == r.printed && status == r.status
  {
    ghost var initial := store.entries;
    printed := [];
    status := Completed;
    var i := 0;
    while i < |lines|
      invariant 0 <= i <= |lines|
      invariant store.entries == ImportFold(initial, lines[..i]).store
      invariant printed == ImportFold(initial, lines[..i]).printed
      invariant ImportFold(initial, lines[..i]).status == Completed
    {
      var line := lines[i];
      assert lines[..i + 1][..i] == lines[..i];
      if !IsIgnored(line) {
        var tokens := Split(line);
        if |tokens| != 2 {
          status := Aborted(i, |tokens|);
          AbortIsFinal(initial, lines, i + 1);
          return;
        }
        var source, target := tokens[0], tokens[1];
        printed := printed + [ProgressLine(source, target)];
        store.Set(source, target);
      }
      i := i + 1;
    }
    assert lines[..i] == lines;
  }
}
