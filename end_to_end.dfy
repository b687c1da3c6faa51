/**
 * The two scripts run one after the other against the same store: the
 * importer writes at the raw source token, the lookup reads at
 * `foomap:` + the stripped input line. A lookup therefore finds an imported
 * value only when the mapping file itself spells the namespace out.
 */
module EndToEnd {
  import opened Wrappers
  import opened PyText
  import opened RedisStore
  import opened RedisImport
  import opened RedisReadKeys

  /**
   * A lookup that finds a value in a store filled by the importer from empty
   * answers with the target of an executed line whose source is exactly
   * `foomap:` followed by the stripped input line.
   */
  lemma FoundOnlyUnderNamespacedSource(lines: seq<string>, x: string, v: string)
    requires Fetch(ImportFold(map[], lines).store, Key(x)) == Some(v)
    ensures exists j: nat :: Reached(lines, j) && Classify(lines[j]) == Write(Namespace + Strip(x), v)
  {
    StoredValueWasWritten(map[], lines, Key(x));
  }

  /**
   * Conversely, the lookup of an input line returns the target of the last
   * executed import line whose source is that line's key.
   */
  lemma LookupSeesLastImport(
    initial: map<string, string>, lines: seq<string>, j: nat, t: string,
    input: seq<string>, faults: set<nat>, k: nat)
    requires Reached(lines, j)
    requires k < |input| && Classify(lines[j]) == Write(Key(input[k]), t)
    requires forall i :: j < i < |lines| && Reached(lines, i) ==> !WritesKey(lines[i], Key(input[k]))
    requires forall i :: 0 <= i <= k ==> i !in faults
    ensures var r := Run(ImportFold(initial, lines).store, input, faults);
            k < |r.output| && r.output[k] == Some(t)
  {
    LastWriteWins(initial, lines, j, Key(input[k]), t);
    ReplyAt(ImportFold(initial, lines).store, input, faults, k);
  }

  /** A file of one `source target` line fills an empty store with that pair. */
  lemma OneLineImport(source: string, target: string)
    requires IsToken(source) && IsToken(target) && source[0] != '#'
    ensures ImportFold(map[], [source + " " + target + "\n"]).store == map[source := target]
  {
    var line := source + " " + target + "\n";
    assert AllSpace("\n");
    ValidLineWritesRawTokens(source, target, "\n");
    assert [line][..0] == [];
  }

  /** Looking up one line `w` followed by its newline queries `foomap:` + `w`. */
  lemma OneLineLookup(entries: map<string, string>, w: string)
    requires IsToken(w)
    ensures Run(entries, [w + "\n"], {}).output == [Fetch(entries, Namespace + w)]
  {
    assert AllSpace("") && AllSpace("\n");
    KeyIgnoresPadding("", w, "\n");
    assert "" + w + "\n" == w + "\n";
    assert [w + "\n"][..0] == [];
  }

  /**
   * The importer and the lookup disagree on keys: a mapping file line
   * `source target` is stored at `source`, while looking up `source` queries
   * `foomap:source`, which that import did not write.
   */
  lemma RawSourceIsNotFound(source: string, target: string)
    requires IsToken(source) && IsToken(target) && source[0] != '#'
    ensures Run(ImportFold(map[], [source + " " + target + "\n"]).store, [source + "\n"], {}).output == [None]
  {
    OneLineImport(source, target);
    OneLineLookup(map[source := target], source);
    assert |Namespace + source| != |source|;
  }

  /**
   * With the namespace spelled out in the mapping file, the lookup of the
   * bare name finds the target.
   */
  lemma NamespacedSourceIsFound(name: string, target: string)
    requires IsToken(name) && IsToken(target)
    ensures Run(ImportFold(map[], [Namespace + name + " " + target + "\n"]).store, [name + "\n"], {}).output
            == [Some(target)]
  {
    var source := Namespace + name;
    assert IsToken(source) && source[0] != '#' by {
      assert forall i :: 0 <= i < |Namespace| ==> !IsSpace(Namespace[i]);
      assert forall i :: 0 <= i < |source| ==> source[i] == if i < |Namespace| then Namespace[i] else name[i - |Namespace|];
    }
    OneLineImport(source, target);
    OneLineLookup(map[source := target], name);
  }

  /** A comment and a one-character blank line write and print nothing. */
  lemma CommentAndBlankWriteNothing(initial: map<string, string>)
    ensures ImportFold(initial, ["# comment\n", " \n"]) == ImportState(initial, [], Completed)
  {
    var lines := ["# comment\n", " \n"];
    assert IsIgnored(lines[0]) && IsIgnored(lines[1]);
    IgnoredLinesWriteNothing(initial, lines);
  }

  /** A blank line of three spaces is not ignored: the run aborts there, with no token. */
  lemma SpacesLineAborts(initial: map<string, string>)
    ensures ImportFold(initial, ["# comment\n", "   \n"]) == ImportState(initial, [], Aborted(1, 0))
  {
    var lines := ["# comment\n", "   \n"];
    BlankRunIsMalformed("   ");
    assert "   " + "\n" == lines[1];
    assert lines[..1] == ["# comment\n"];
    assert IsIgnored(lines[0]);
    IgnoredLinesWriteNothing(initial, lines[..1]);
  }

  /**
   * A file whose first line holds a single token aborts on it: nothing is
   * written or printed, and no later line is processed.
   */
  lemma OneTokenLineStopsImport(initial: map<string, string>, w: string, later: seq<string>)
    requires IsToken(w) && w[0] != '#'
    ensures ImportFold(initial, [w + "\n"] + later) == ImportState(initial, [], Aborted(0, 1))
  {
    var lines := [w + "\n"] + later;
    assert AllSpace("\n");
    OneTokenIsMalformed(w, "\n");
    assert lines[..1] == [w + "\n"];
    assert lines[..1][..0] == [];
    AbortIsFinal(initial, lines, 1);
  }

  /**
   * A key that was never imported reads as nil and the session carries on:
   * without a failing iteration every line gets a reply.
   */
  lemma MissingKeyDoesNotEndSession(entries: map<string, string>, input: seq<string>, k: nat)
    requires k < |input| && Key(input[k]) !in entries
    ensures var r := Run(entries, input, {});
            !r.exited && |r.output| == |input| && r.output[k] == None
  {
    ExitsIffFault(entries, input, {});
    ReplyInOrder(entries, input, {}, k);
  }
}
