# redis-apache-rewrite, modelled in Dafny

Two Python 2 scripts share a redis server that holds an Apache rewrite map.

- **The importer** (`redis-import.py`) reads the map file line by line. It skips
  the lines that match `^\s$|^\#`. Every other line is split on whitespace and
  unpacked into `(source, target)`. It prints `source: <s> target: <t>` and
  SETs `source` to `target`.
- **The lookup** (`redis-read-keys.py`) loops forever. Each time it reads a
  line from standard input, strips it, prefixes it with `foomap:`, GETs that
  key and prints the reply. An exception while prefixing, fetching or printing
  returns from `main`; the read and strip sit outside the `try`.

The redis server is an abstract `map<string, string>` (`RedisStore.Store`,
with `Set` and `Get`). The map file is a sequence of lines, each with its
newline. Standard input is a finite sequence of the strings `readline`
returned. The printed output is a returned sequence.

Modules:

- `PyText` (`py_text.dfy`): the Python 2 whitespace class, `str.split()` and
  `str.strip()`, with their inverse lemmas.
- `RedisStore` (`redis_store.dfy`): the server, as a class with SET and GET.
- `RedisImport` (`redis_import.dfy`): the ignore pattern, the per-line
  decision, and the import as a left fold over the lines (`ImportFold`). The
  loop `Import` is proved equal to that fold.
- `RedisReadKeys` (`redis_read_keys.dfy`): the key function, the session as a
  fold (`Run`), and the loop `ReadKeys` proved equal to it.
- `EndToEnd` (`end_to_end.dfy`): the two scripts run one after the other.

In places the code behaves in ways a reader of the scripts might not expect.
The model follows the code there:

- The importer stores the raw source token. It does not add the `foomap:`
  prefix, so a lookup only finds lines whose source already starts with
  `foomap:` (`EndToEnd.RawSourceIsNotFound`, `EndToEnd.NamespacedSourceIsFound`).
- The lookup's comment at redis-read-keys.py:15 speaks of a `foomap.` prefix;
  the code adds `foomap:` (with a colon), and so does the model.
- Only a line of one whitespace character (with or without its newline) is
  ignored as blank. A line of two or more blanks splits into no token and
  aborts the import (`RedisImport.BlankRunIsMalformed`).
- A malformed line aborts the whole import. Earlier writes stay and later
  lines are not read. It is not skipped.
- The lookup does not stop at end of input: an empty read is queried as
  `foomap:`. A missing key is a nil reply, not an error, so the loop goes on.
  Inside the loop it ends only when prefixing, fetching or printing raises.

## Model

| member | source | states |
|---|---|---|
| `PyText.IsSpace` | redis-import.py:20 | the whitespace class behind `\s`, `split()` and `strip()` holds only the space and control characters from tab upwards |
| `PyText.WordLength` | redis-import.py:26 | the length of the leading run of non-whitespace characters: all before it are non-whitespace and the next one, if any, is whitespace |
| `PyText.Split` | redis-import.py:26 | `line.split()` yields only non-empty tokens without whitespace, and yields nothing exactly when the line is all whitespace |
| `PyText.SplitAfterSpace` | redis-import.py:26 | leading whitespace adds no token |
| `PyText.SplitToken` | redis-import.py:26 | a token followed by whitespace or the end is split off whole |
| `PyText.WordLengthOfToken` | redis-import.py:26 | a token followed by whitespace or the end is exactly the leading run |
| `PyText.SplitJoin` | redis-import.py:26 | split undoes joining tokens with single spaces, whatever whitespace trails (the newline) |
| `PyText.TrimLeft` | redis-read-keys.py:12 | the result is a suffix of the input, what was cut is all whitespace, and it does not start with whitespace |
| `PyText.TrimRight` | redis-read-keys.py:12 | the result is a prefix of the input, what was cut is all whitespace, and it does not end with whitespace |
| `PyText.Strip` | redis-read-keys.py:12 | `strip()` leaves no whitespace at either end and never lengthens |
| `PyText.TrimLeftPadded` | redis-read-keys.py:12 | left-trimming removes exactly the whitespace prefix |
| `PyText.TrimRightPadded` | redis-read-keys.py:12 | right-trimming removes exactly the whitespace suffix |
| `PyText.StripPadded` | redis-read-keys.py:12 | strip returns the text between any blank padding unchanged |
| `RedisStore.Fetch` | redis-read-keys.py:18 | GET returns a value exactly when the key is present, and that value is the stored one |
| `RedisStore.Store.constructor` | redis-import.py:11 | the store starts with the given contents |
| `RedisStore.Store.Set` | redis-import.py:30 | SET overwrites the key with the value and leaves every other key as it was |
| `RedisStore.Store.Get` | redis-read-keys.py:18 | GET reads the reply for the key from the current contents and changes nothing |
| `RedisImport.IsIgnored` | redis-import.py:20-25 | the pattern ignores exactly: a line starting with `#`, or one whitespace character optionally followed by the newline |
| `RedisImport.Classify` | redis-import.py:25-26 | a line is skipped exactly when the ignore pattern matches; otherwise it is written when it splits into two tokens (source and target in order), else malformed with its token count |
| `RedisImport.ProgressLineNamesPair` | redis-import.py:29 | the progress line `ProgressLine(s, t)`, split on whitespace, reads back as `source:`, `s`, `target:`, `t` |
| `RedisImport.ValidLineWritesRawTokens` | redis-import.py:26-30 | a line `source target` plus trailing whitespace writes the raw source token, with no prefix, to the target |
| `RedisImport.BlankRunIsMalformed` | redis-import.py:20-26 | two or more whitespace characters before the newline are not ignored and give zero tokens, so the unpacking fails |
| `RedisImport.OneTokenIsMalformed` | redis-import.py:26 | a one-token line fails the unpacking with one value |
| `RedisImport.Step` | redis-import.py:25-30 | one iteration changes the store only at a written line's source, sets it to the target, prints one progress line for a write and nothing otherwise, and changes the status only to an abort at a malformed line |
| `RedisImport.ImportFold` | redis-import.py:24-30 | the fold prints at most one line per input line and aborts, if at all, at an index inside the file |
| `RedisImport.CompletedIffWellFormed` | redis-import.py:24-26 | the import completes exactly when no line is malformed |
| `RedisImport.AbortIsFinal` | redis-import.py:24-26 | once aborted, later lines change nothing |
| `RedisImport.AbortKeepsEarlierWrites` | redis-import.py:24-30 | an abort happens at the first malformed line, and the store and output are exactly those of the lines before it |
| `RedisImport.IgnoredLinesWriteNothing` | redis-import.py:24-25 | a file of ignored lines leaves the store unchanged and prints nothing |
| `RedisImport.LastWriteWins` | redis-import.py:24-30 | the store holds, for a source, the target of the last executed line with that source; lines after an abort are not executed and do not count |
| `RedisImport.UnwrittenKeyUnchanged` | redis-import.py:30 | a key no line writes keeps its value or stays absent |
| `RedisImport.StoredValueWasWritten` | redis-import.py:26-30 | every new or changed stored value comes from an executed line with that source and that target |
| `RedisImport.PrintedGrows` | redis-import.py:29 | output is only appended to |
| `RedisImport.PrintedOnePerWrite` | redis-import.py:29-30 | a completed import prints one progress line per written line |
| `RedisImport.PrintedAtWrite` | redis-import.py:29-30 | the progress line of an executed write names its source and target, and follows those of earlier writes |
| `RedisImport.Import` | redis-import.py:24-30 | the loop leaves the store, output and status that the fold gives for the initial store |
| `RedisReadKeys.Run` | redis-read-keys.py:10-20 | the session replies to a prefix of the input; no reply position is a failing iteration; it exits exactly at a failing iteration, and replies to every line when it does not exit |
| `RedisReadKeys.Key` | redis-read-keys.py:12-16 | the queried key starts with the namespace `Namespace` (`foomap:`), and is at most the namespace plus the line |
| `RedisReadKeys.ReplyInOrder` | redis-read-keys.py:10-18 | reply `k` is the GET of line `k`'s key, in input order |
| `RedisReadKeys.ReplyAt` | redis-read-keys.py:10-18 | every line before the first failure gets its reply |
| `RedisReadKeys.KeyShape` | redis-read-keys.py:12-16 | two lines share a key exactly when they strip alike |
| `RedisReadKeys.KeyIgnoresPadding` | redis-read-keys.py:12-16 | surrounding whitespace, such as the newline, does not change the key |
| `RedisReadKeys.ExitsIffFault` | redis-read-keys.py:14-20 | the session returns early exactly when some iteration raises |
| `RedisReadKeys.ExitIsFinal` | redis-read-keys.py:14-20 | after the first raising iteration no further line is read |
| `RedisReadKeys.EndOfInputIsQueried` | redis-read-keys.py:10-16 | an empty read at end of input is queried as the bare `foomap:` key |
| `RedisReadKeys.ReadKeys` | redis-read-keys.py:8-20 | the loop emits exactly the session's replies, at most one per line, and has no write access to the store |
| `EndToEnd.FoundOnlyUnderNamespacedSource` | redis-import.py:26-30 | after importing into an empty store, a lookup of `x` finds `v` only if an executed line wrote `v` under source `foomap:` + strip(`x`) |
| `EndToEnd.LookupSeesLastImport` | redis-read-keys.py:12-18 | a lookup returns the target of the last executed import line whose source is the line's key, later lines skipped by an abort included |
| `EndToEnd.OneLineImport` | redis-import.py:24-30 | a one-line file `source target` fills an empty store with exactly that pair |
| `EndToEnd.OneLineLookup` | redis-read-keys.py:10-18 | looking up one token and its newline yields the GET of `foomap:` + token |
| `EndToEnd.RawSourceIsNotFound` | redis-import.py:30 | importing `source target` and then looking up `source` yields nil |
| `EndToEnd.NamespacedSourceIsFound` | redis-read-keys.py:16 | importing `foomap:name target` and then looking up `name` yields the target |
| `EndToEnd.CommentAndBlankWriteNothing` | redis-import.py:20-25 | a comment line and a one-space blank line write and print nothing |
| `EndToEnd.SpacesLineAborts` | redis-import.py:20-26 | a three-space blank line aborts the import at that line with zero tokens |
| `EndToEnd.OneTokenLineStopsImport` | redis-import.py:24-26 | a first line with one token aborts with nothing written, whatever follows |
| `EndToEnd.MissingKeyDoesNotEndSession` | redis-read-keys.py:14-20 | a key never stored reads as nil, and with no failing iteration every line gets a reply |

## Left out

- The redis connection (host, port, database) is not modelled. The server is a map. Failures of SET during the import are not modelled: such a failure would end the run after the progress line and before the write.
- A failing progress `print` in the importer (redis-import.py:29, for example a closed standard output) is not modelled: it would end the run after the line was split and before its SET.
- Exceptions from `sys.stdin.readline().strip()` in the lookup (redis-read-keys.py:12, for example an interrupt or a read error) are not modelled. That call is outside the `try`, so such an exception propagates out of `main` instead of returning.
- Which lookup iterations raise is decided by the network and standard output. The model takes it as a parameter `faults` (input positions whose fetch or print raises), not as a consequence of the store.
- The map file path, `open`, and stdin/stdout handling are not modelled. Lines are given as a sequence, and the output is returned.
- `reload(sys)`, `setdefaultencoding` and the `unicode()` conversions are not modelled. The model treats text as characters, so a decode error on invalid UTF-8 is not represented.
- Regular expressions in general are not modelled. Only the one pattern `^\s$|^\#` under `re.match` is (`IsIgnored`).
- How redis-py and `print` render a reply (for example `None` for nil) is not modelled. A reply is an `Option<string>`.
- The unbounded `while True` and process exit are not modelled. The lookup runs over a finite input, and the import's traceback is an `Aborted` status.
