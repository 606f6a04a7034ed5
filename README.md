# ASCII sanitiser of the event-organising crew script

The script `tech_event_origanising.py` sets up a crew of three agents (venue
coordinator, logistics manager, marketing agent), gives them three tasks and
hands a dictionary of event details to the crew. Before the text goes to the
crew it is made ASCII-only. This project models that part of the script:

- `clean_ascii(text)`: one regular-expression substitution that replaces every
  maximal run of characters outside US-ASCII (code points 0x00 to 0x7F) by a
  single space. It is modelled in `clean_ascii.dfy` (module `AsciiCleaner`).
- `sanitize_dict(d)`: walks the entries of the event dictionary and
  overwrites them in place. A string becomes its `clean_ascii` image. A list
  becomes a new list in which only the string elements are cleaned. Any other
  value is left alone, and the same dictionary object is returned. It is
  modelled in `sanitize_dict.dfy` (module `RecordSanitizer`, with a worked
  example in module `SanitizeExample`).
- The event details that the script passes through `sanitize_dict`: the
  dictionary display with its ten keys and all of its literal values. They
  are modelled in `event_details.dfy` (module `EventDetails`).

`CleanAscii` follows the substitution: it copies an ASCII character, and at a
non-ASCII character it consumes the whole run (`RunLength`, the greedy `+`)
and emits one space. An independent reference definition, `Scan`, reads one
character at a time and keeps a single bit of state: whether it is inside a
run. It emits tagged pieces, `Kept(c)` for a copied character and `Gap` for
the space that stands for a run. The two definitions are proved to agree. The
pieces then show that the output is the ASCII subsequence of the input with
exactly one space per run.

The dictionary is the class `Dict`. It has an insertion-ordered key sequence
`keys` and a map `entries`. `Put` is the item assignment `d[k] = v`, which
keeps an existing key where it is. `SanitizeDict` is a loop over the keys that
calls `Put`, like the source's `for` loop over `d.items()`. It is proved to
keep the keys and their order, to store `SanitizeValue` of every original
value, and to return the same object.

A Python string is a sequence of code points, modelled as Dafny's `string`
(Unicode scalar values). "ASCII" means `c as int < 128`, which is exactly the
class `[\x00-\x7F]`. The code does not remove the control characters 0x00 to
0x1F and 0x7F, and neither does the model.

The agent and task descriptions at `tech_event_origanising.py:41-99` pass
ASCII string literals through `clean_ascii`. By `CleanAsciiOfAscii` they come
back unchanged. The event record at `tech_event_origanising.py:113-141` is
also entirely ASCII. `EventDetails` writes it out literally and proves that
sanitising it gives back the same record. Each long literal is written there
as a concatenation of short pieces, so that its characters can be checked a
piece at a time.

## Model

| member | source | states |
|---|---|---|
| `AsciiCleaner.RunLength` | tech_event_origanising.py:14 | the greedy `[^\x00-\x7F]+` consumes a prefix of non-ASCII characters only, and stops at the end of the text or at an ASCII character, so the match is maximal |
| `AsciiCleaner.SkipRun` | tech_event_origanising.py:14 | the text left after the greedy match of a run is empty or starts with an ASCII character, and is no longer than the text it came from |
| `AsciiCleaner.CleanAscii` | tech_event_origanising.py:13-14 | every character of the result is ASCII; the result is no longer than the input; the result is empty exactly when the input is empty |
| `AsciiCleaner.CleanAsciiOfAscii` | tech_event_origanising.py:14 | text that is already ASCII is returned unchanged |
| `AsciiCleaner.CleanAsciiIdempotent` | tech_event_origanising.py:14 | cleaning twice gives the same text as cleaning once |
| `AsciiCleaner.CleanAsciiFixpoint` | tech_event_origanising.py:14 | the cleaner leaves a text unchanged if and only if the text is all ASCII |
| `AsciiCleaner.CleanAsciiIsScan` | tech_event_origanising.py:14 | the substitution equals the text of a one-character-at-a-time scanner that emits one space at the first character of each run and nothing for the rest of the run |
| `AsciiCleaner.ScanKeepsAscii` | tech_event_origanising.py:14 | with the run-spaces removed, the scanner's output is exactly the ASCII subsequence of the input, in order |
| `AsciiCleaner.CleanAsciiKeepsAsciiInOrder` | tech_event_origanising.py:14 | the cleaned text is the ASCII subsequence of the input with one space per maximal run of non-ASCII characters, and no two such spaces are adjacent |
| `AsciiCleaner.CleanAsciiLength` | tech_event_origanising.py:14 | the length of the cleaned text is the number of ASCII characters of the input plus the number of maximal non-ASCII runs |
| `AsciiCleaner.CleanAsciiRun` | tech_event_origanising.py:14 | a maximal run of one or more non-ASCII characters becomes exactly one space, whatever its length |
| `AsciiCleaner.CleanAsciiAppend` | tech_event_origanising.py:14 | cleaning a concatenation whose cut does not fall inside a non-ASCII run is the concatenation of the cleaned parts |
| `AsciiCleaner.CleanAsciiMergesRuns` | tech_event_origanising.py:14 | when the cut falls inside a run, the two halves of the run give one space, not two |
| `RecordSanitizer.CleanItems` | tech_event_origanising.py:31 | the new list has the same length; a string element at index i becomes the cleaned string; every other element, a nested list included, stays unchanged at index i |
| `RecordSanitizer.SanitizeValue` | tech_event_origanising.py:28-31 | the stored value is sanitised (its strings and the string elements of a list are ASCII); a string stays a string, a list stays a list of the same length, and any other value is returned unchanged |
| `RecordSanitizer.SanitizeSanitized` | tech_event_origanising.py:28-31 | a value that is already sanitised is stored back unchanged |
| `RecordSanitizer.SanitizeValueIdempotent` | tech_event_origanising.py:28-31 | sanitising a value twice gives the same value as sanitising it once |
| `RecordSanitizer.Dict.Put` | tech_event_origanising.py:29-31 | the assignment `d[k] = v` keeps the dictionary well formed, keeps an existing key in its place (or appends a new one), and changes only the value of `k` |
| `RecordSanitizer.SanitizeEntries` | tech_event_origanising.py:26-32 | a sanitised record has the same keys as the original, and every value in it is sanitised |
| `RecordSanitizer.SanitizeDict` | tech_event_origanising.py:26-32 | returns the same dictionary object, modified in place; the keys and their order are unchanged; each value is replaced by its sanitised image |
| `RecordSanitizer.SanitizeEntriesIdempotent` | tech_event_origanising.py:26-32 | sanitising a record twice gives the same record as sanitising it once |
| `RecordSanitizer.SanitizeEntriesOfSanitized` | tech_event_origanising.py:26-32 | a record whose strings are all ASCII, such as the event details, comes back unchanged |
| `SanitizeExample.TwoNonAsciiOneSpace` | tech_event_origanising.py:14 | two adjacent non-ASCII characters between two ASCII characters become a single space |
| `SanitizeExample.SampleValues` | tech_event_origanising.py:28-31 | for a string, an integer and a list mixing a string, an integer and a nested list: only the string and the list's string element are cleaned |
| `SanitizeExample.SanitizeSample` | tech_event_origanising.py:26-32 | sanitising a record with three of the event details' keys, whose strings hold a run of non-ASCII characters (symbolic characters), keeps the keys in order, turns each run into one space, and leaves the integer and the nested list as they were |
| `EventDetails.EventRecordSanitized` | tech_event_origanising.py:113-141 | every value of the literal event record is already sanitised: all its strings, and all the string elements of its two lists, are ASCII |
| `EventDetails.EventRecordUnchanged` | tech_event_origanising.py:113-141 | sanitising the literal event record gives back exactly the same record |
| `EventDetails.SanitizeEventDetails` | tech_event_origanising.py:113-141 | `sanitize_dict` applied to the dictionary holding the event details returns that same dictionary, with its ten keys in the order written and every value as it was |

The remaining members are helpers and have no row. `RecordSanitizer.Dict.constructor`
and `SanitizeExample.SampleRecord` build the example dictionary.
`EventDetails.AllAsciiAppend` and the `...Ascii` lemmas of `EventDetails` check
the literal strings piece by piece. The reference scanner's own lemmas
(`ScanSkipsRun`, `ScanAppend` and the like) serve the lemmas above.

## Left out

- `safe_ascii_env` (`tech_event_origanising.py:16-17`): it relies on Unicode NFKD normalisation, whose decomposition tables belong to the `unicodedata` library. It is used only on the ASCII model name at line 22.
- Environment setup and API-key retrieval (`tech_event_origanising.py:9`, `19-23`): these are process-environment I/O and calls into the `utils` module. `utils` is not part of this model.
- The agents, tasks, crew and tools (`tech_event_origanising.py:35-110`) and the `VenueDetails` schema (`73-77`): these are configuration handed to the crewai framework and to pydantic.
- The kickoff and result processing (`tech_event_origanising.py:143-170`): they run the crew, which is a framework and language-model call. They also inspect framework objects, write JSON and Markdown files, print to the console, and catch every exception in order to report it.
- `SanitizeEventDetails` starts from a dictionary that already holds the record, rather than building it from the display with ten `Put` calls. The literal record itself is `EventRecord`, key for key and value for value.
- A Python `str` may hold lone surrogates (U+D800 to U+DFFF), which a Dafny `char` cannot. They are outside ASCII, so `clean_ascii` would treat them like any other non-ASCII character; the model's input domain is only narrower by them.
- Python's dictionary is modelled with string keys only, and values outside strings, integers and lists are one opaque `Other` case. `sanitize_dict` does not look inside such values, so the model does not need to distinguish them.
- Subclasses of `str` and `list`, which Python's `isinstance` would also accept, are not modelled separately.
