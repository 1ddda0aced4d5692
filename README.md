# subruster, modelled in Dafny

subruster is a DNS subdomain enumerator. It reads a wordlist of candidate
labels and probes one name under the target domain to detect a wildcard
record. That name carries a nonce taken from the clock's sub-second
nanoseconds, so it is virtually certain not to exist. It then looks up `<label>.<domain>` for every candidate
concurrently and keeps the names whose first address is not the wildcard's.
Finally it can write those names to a file, one per line.

This project models that decision and accumulation logic with the network,
clock, console and concurrency taken out:

- `wordlist.dfy` (module `Wordlist`): `load_wordlist` on already-decoded
  lines. This covers Rust's `trim` over the Unicode White_Space set and the
  blank-line and `#`-comment filter.
- `resolution.dfy` (module `Resolution`): the outcome of one bounded
  lookup (`Timeout | Failure | Answer(addrs)`), and the
  `wildcard-check-<nonce>.<domain>` probe name with its decimal nonce.
  It also holds `detect_wildcard`'s mapping of the probe outcome to an
  optional address, and the per-candidate accept/reject decision.
- `enumeration.dfy` (module `Enumeration`): class `Enumerator`, which holds
  the shared `found_domains` list as a `seq<string>` field. `Process` is the
  body of one concurrent task. `Run` is the stream of tasks, executed
  sequentially and proved equal to the specification function `Enumerate`.
  Lemmas cover input order, soundness of the wildcard filter, absence of
  filtering without a wildcard, order independence of the recorded multiset,
  and the absence of deduplication.
- `output.dfy` (module `Output`): the `writeln!` loop over the results, as
  class `OutputFile` and method `SaveResults`. It also has reading
  newline-delimited text back into lines, and the round trip between the two.
- `subruster.dfy` (module `Subruster`): one whole run (`Execute`) and the
  end-to-end read-back of the saved file.
- `seqs.dfy` and `wrappers.dfy`: the generic `filter_map` facts and the
  `Option` type that the modules above share.

The resolver is a parameter `resolve: string -> Lookup`, which gives the
outcome of a lookup of each name. The clock's sub-second nanoseconds that
form the probe's nonce are a parameter `nonce: Nanos` (`0 <= nonce < 10^9`).

What the code does and does not do, as the model states it:

- The code has no deduplication. Every accepted task pushes its name
  unconditionally (`src/main.rs:120-121`). `DuplicateCandidateRecordedTwice`
  shows that a repeated label is recorded twice.
- The wildcard comparison uses only the first address's text
  (`src/main.rs:101-106`), not address sets.
- The code has no "include wildcard" option and no built-in fallback
  wordlist. The wordlist path is a required argument (`src/main.rs:20-21`).
- The code stores only names, not (name, addresses) pairs
  (`src/main.rs:75`, `src/main.rs:121`).

## Model

| member | source | states |
|---|---|---|
| `Wordlist.Trim` | src/main.rs:153 | the result is trimmed at both ends and is a slice of the line with only whitespace (Rust's `char::is_whitespace` set) before and after it |
| `Wordlist.KeepLine` | src/main.rs:153-154 | a line is kept iff its trim is non-empty and does not start with `#`, and what is kept is that trim |
| `Wordlist.LoadWordlist` | src/main.rs:146-158 | the loader returns at most as many words as there are lines |
| `Wordlist.LoadWordlistKeeps` | src/main.rs:150-155 | the k-th word is the trim of the k-th kept line; kept positions ascend, so relative order is preserved; a line is kept iff its trim is non-empty and does not start with `#` |
| `Wordlist.LoadWordlistWords` | src/main.rs:153-154 | every returned word is non-empty, has no leading or trailing whitespace, and does not start with `#` |
| `Wordlist.LoadWordlistIdempotent` | src/main.rs:153-154 | loading the loader's own output returns it unchanged |
| `Wordlist.IndentedCommentDropped` | src/main.rs:153-154 | a line made of whitespace, then `#`, then anything is dropped, because the `#` test follows the trim |
| `Resolution.Decimal` | src/main.rs:165 | the nonce is written as at least one ASCII digit, with no leading zero |
| `Resolution.DecimalRoundTrip` | src/main.rs:165 | reading the nonce's decimal text back gives the nonce |
| `Resolution.ProbeNameInjective` | src/main.rs:161-165 | distinct nonces give distinct probe names under the same domain |
| `Resolution.ProbeNameIsUnderDomain` | src/main.rs:165 | the probe name is `wildcard-check-<nonce>` + "." + domain, and its digits denote the nonce |
| `Resolution.ProbeName` | src/main.rs:165 | the probe name starts with `wildcard-check-`, ends with `.` followed by the domain, and has the nonce's digits in between |
| `Resolution.DetectWildcard` | src/main.rs:160-175 | the probe yields an address iff its lookup answered in time with at least one address, and that address is the first one; timeout, error or an empty answer yield `None` |
| `Resolution.FullDomain` | src/main.rs:92 | the looked-up name is the candidate, then one `.`, then the domain |
| `Resolution.IsNoise` | src/main.rs:105-106 | a first address is noise iff a wildcard was detected and its address is the same text; with no wildcard nothing is noise |
| `Resolution.Classify` | src/main.rs:92-126 | a candidate is recorded iff its lookup answered with at least one address and, when there is a wildcard, its first address differs from it; the record is exactly `sub + "." + domain`; timeouts and errors record nothing; with no wildcard every non-empty answer is recorded |
| `Enumeration.Enumerate` | src/main.rs:80-130 | a run over n candidates records at most n names |
| `Enumeration.Enumerator.constructor` | src/main.rs:75 | the shared list starts empty, with the given domain and wildcard |
| `Enumeration.Enumerator.Process` | src/main.rs:91-128 | one task appends exactly `sub + "." + domain` when its outcome is accepted and leaves the list unchanged otherwise; nothing is removed or reordered |
| `Enumeration.Enumerator.Run` | src/main.rs:80-130 | processing the candidates one by one appends `Enumerate` of them to the list |
| `Enumeration.EnumerateInInputOrder` | src/main.rs:92-121 | the list holds, in input order, the full names of exactly the candidates whose outcomes are accepted |
| `Enumeration.EnumerateSound` | src/main.rs:100-108 | every recorded name resolved to at least one address, and its first address is not the wildcard's |
| `Enumeration.NoWildcardRecordsEveryAnswer` | src/main.rs:105-106 | with no wildcard, every candidate whose lookup answered with an address is recorded |
| `Enumeration.EnumerateOrderIndependent` | src/main.rs:83-121 | processing the candidates in any order records the same multiset of names |
| `Enumeration.EnumerateAppend` | src/main.rs:120-121 | two batches processed in turn record the concatenation of their results |
| `Enumeration.DuplicateCandidateRecordedTwice` | src/main.rs:120-121 | an accepted candidate listed twice is recorded twice (no deduplication) |
| `Enumeration.EnumerateWithout` | src/main.rs:92 | a character in neither the domain nor any candidate, other than `.`, appears in no recorded name |
| `Output.SplitLines` | src/main.rs:151 | no line read from a text contains a newline |
| `Output.Serialise` | src/main.rs:135-137 | the written text has at least one character per name and, when there is any name, ends with a newline |
| `Output.SplitSerialise` | src/main.rs:135-137 | splitting the written text on newlines returns the list of names exactly, when no name contains a newline |
| `Output.OutputFile.Create` | src/main.rs:134 | a created file is empty |
| `Output.OutputFile.WriteLine` | src/main.rs:136 | writing a line appends the line and a newline |
| `Output.SaveResults` | src/main.rs:132-137 | the file holds each result followed by a newline, in list order |
| `Subruster.Discover` | src/main.rs:55-130 | a run records at most one name per wordlist line, and every recorded name was accepted against the wildcard the probe found |
| `Subruster.Execute` | src/main.rs:55-137 | a run records `Discover` of its inputs (wildcard probe, then wordlist, then enumeration), and the saved text is their serialisation when an output is requested |
| `Subruster.SavedResultsReadBack` | src/main.rs:132-137 | when the domain and the wordlist lines contain no newline, the saved file reads back as exactly the names found |

## Left out

- Command-line parsing (`Args`, clap): library glue. Only `domain`, `wordlist` and `output` have counterparts in `Execute`: `domain`, `lines` and `writeOutput`. `concurrency`, `timeout` and `silent` have none; the lines on concurrency, timeouts and console output below cover them.
- The banner, progress and result lines printed to the console, and their colouring: console output only.
- The DNS resolver and `lookup_ip`: a network call. The model replaces it with a function from a name to its outcome. That function is deterministic, so its outcome depends only on the name.
- The timeout durations (3 s for the probe, the user's value for candidates): real time. A timeout appears only as the `Timeout` outcome.
- `for_each_concurrent`, `Arc` and the mutex: the concurrency itself, including the concurrency limit. The tasks run sequentially, and `EnumerateOrderIndependent` covers any completion order.
- The clock read that produces the nonce: it is the `nonce` parameter.
- Opening, creating and writing real files, and their error paths (`?` on `File::open`, `File::create` and `writeln!`): I/O. The wordlist is a sequence of lines, and the output file is modelled by its text.
- Lines dropped by `filter_map(|line| line.ok())`: lines arrive already read and decoded. That call drops every read error, not only invalid UTF-8, so a reader that keeps failing (a wordlist path that names a directory, say) would keep `load_wordlist` looping; that I/O behaviour is not modelled.
- `Output.SplitLines` does not strip a trailing carriage return the way `BufRead::lines` does. For the wordlist this changes nothing, because the trim that follows removes it.
- `IpAddr::to_string`: addresses are opaque strings.
