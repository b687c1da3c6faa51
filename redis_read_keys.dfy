/**
 * The lookup (redis-read-keys.py): read a line, strip it, prefix it with
 * `foomap:`, GET that key and print the reply; repeat. End of input is not a
 * stopping condition (`readline` then returns the empty string, which is
 * queried like any other line). An exception while prefixing, fetching or
 * printing reaches the bare `except`, which returns from `main`; the
 * `readline().strip()` sits outside the `try`, and an exception there is not
 * part of this model.
 *
 * The input is a finite sequence of the strings `readline` returned, end of
 * input included as empty strings. Which of those iterations raise is not
 * decided by the store contents, so it is given as `faults`: the positions
 * whose fetch or print fails.
 */
module RedisReadKeys {
  import opened Wrappers
  import opened PyText
  import opened RedisStore

  const Namespace: string := "foomap:"

  /**
   * The key queried for an input line: `'foomap:' + line.strip()`. Every key
   * lies in the `foomap:` namespace and is never longer than the namespace
   * plus the line.
   */
  function Key(line: string): (k: string)
    ensures |k| >= |Namespace| && k[..|Namespace|] == Namespace
    ensures |k| <= |Namespace| + |line|
  {
    Namespace + Strip(line)
  }

  /** What the session printed, and whether it left through the `except`. */
  datatype Session = Session(output: seq<Option<string>>, exited: bool)

  /** The session over `input`, one iteration per line, as a left fold. */
  function Run(entries: map<string, string>, input: seq<string>, faults: set<nat>): (r: Session)
    ensures |r.output| <= |input|
    ensures forall k :: 0 <= k < |r.output| ==> k !in faults
    ensures r.exited ==> |r.output| in faults
    ensures !r.exited ==> |r.output| == |input|
    decreases |input|
  {
    if input == [] then Session([], false)
    else
      var last := |input| - 1;
      var prev := Run(entries, input[..last], faults);
      if prev.exited then prev
      else if last in faults then Session(prev.output, true)
      else Session(prev.output + [Fetch(entries, Key(input[last]))], false)
  }

  /** One reply per line read, in input order: reply `k` is the GET of line `k`'s key. */
  lemma {:induction false} ReplyInOrder(entries: map<string, string>, input: seq<string>, faults: set<nat>, k: nat)
    ensures var r := Run(entries, input, faults);
            k < |r.output| ==> r.output[k] == Fetch(entries, Key(input[k]))
    decreases |input|
  {
    if input != [] {
      var last := |input| - 1;
      var init := input[..last];
      var prev := Run(entries, init, faults);
      var r := Run(entries, input, faults);
      if k < |prev.output| {
        ReplyInOrder(entries, init, faults, k);
        assert init[k] == input[k];
        assert r.output[k] == prev.output[k];
      } else if k < |r.output| {
        assert !prev.exited && last !in faults && k == last;
        assert r.output == prev.output + [Fetch(entries, Key(input[last]))];
      }
    }
  }

  /** Two lines give the same key exactly when they strip to the same text. */
  lemma KeyShape(line: string, other: string)
    ensures Key(line) == Key(other) <==> Strip(line) == Strip(other)
  {
    if Key(line) == Key(other) {
      assert Key(line)[|Namespace|..] == Key(other)[|Namespace|..];
    }
  }

  /** Surrounding whitespace, such as the newline `readline` keeps, is ignored. */
  lemma KeyIgnoresPadding(lead: string, w: string, trail: string)
    requires AllSpace(lead) && AllSpace(trail)
    requires w == [] || (!IsSpace(w[0]) && !IsSpace(w[|w| - 1]))
    ensures Key(lead + w + trail) == Namespace + w
  {
    StripPadded(lead, w, trail);
  }

  /** The session leaves through the `except` exactly when some line's iteration raises. */
  lemma {:induction false} ExitsIffFault(entries: map<string, string>, input: seq<string>, faults: set<nat>)
    ensures Run(entries, input, faults).exited <==> exists k :: 0 <= k < |input| && k in faults
    decreases |input|
  {
    if input != [] {
      var last := |input| - 1;
      ExitsIffFault(entries, input[..last], faults);
      var r := Run(entries, input, faults);
      if r.exited {
        assert |r.output| in faults;
      }
    }
  }

  /** After the first failing iteration no further line is read. */
  lemma {:induction false} ExitIsFinal(entries: map<string, string>, input: seq<string>, faults: set<nat>, k: nat)
    requires k <= |input|
    requires Run(entries, input[..k], faults).exited
    ensures Run(entries, input, faults) == Run(entries, input[..k], faults)
    decreases |input| - k
  {
    if k == |input| {
      assert input[..k] == input;
    } else {
      var init := input[..|input| - 1];
      assert init[..k] == input[..k];
      ExitIsFinal(entries, init, faults, k);
    }
  }

  /** Every line up to the first failing iteration gets the reply for its key. */
  lemma ReplyAt(entries: map<string, string>, input: seq<string>, faults: set<nat>, k: nat)
    requires k < |input|
    requires forall i :: 0 <= i <= k ==> i !in faults
    ensures var r := Run(entries, input, faults);
            k < |r.output| && r.output[k] == Fetch(entries, Key(input[k]))
  {
    var r := Run(entries, input, faults);
    if r.exited {
      assert |r.output| in faults;
    }
    ReplyInOrder(entries, input, faults, k);
  }

  /** An empty read at end of input is queried as the bare namespace. */
  lemma EndOfInputIsQueried(entries: map<string, string>, input: seq<string>, faults: set<nat>, k: nat)
    requires k < |input| && input[k] == ""
    requires forall i :: 0 <= i <= k ==> i !in faults
    ensures var r := Run(entries, input, faults);
            k < |r.output| && r.output[k] == Fetch(entries, Namespace)
  {
    ReplyAt(entries, input, faults, k);
    assert Strip(input[k]) == [];
    assert Namespace + [] == Namespace;
  }

  /**
   * `main`: loop over the input, GET each key and emit the reply; return as
   * soon as an iteration raises. The store is only read.
   */
  method ReadKeys(store: Store, input: seq<string>, faults: set<nat>) returns (output: seq<Option<string>>)
    ensures output == Run(store.entries, input, faults).output
    ensures |output| <= |input|
  {
    output := [];
    var i := 0;
    while i < |input|
      invariant 0 <= i <= |input|
      invariant Run(store.entries, input[..i], faults) == Session(output, false)
    {
      assert input[..i + 1][..i] == input[..i];
      if i in faults {
        ExitIsFinal(store.entries, input, faults, i + 1);
        return;
      }
      var stripped := Strip(input[i]);
      var key := Namespace + stripped;
      var reply := store.Get(key);
      output := output + [reply];
      i := i + 1;
    }
    assert input[..i] == input;
  }
}
