/**
 * One run of the enumerator: probe for a wildcard, load the wordlist,
 * enumerate the candidates and, when an output path is given, save the
 * names found.
 */
module Subruster {
  import opened Wrappers
  import Wordlist
  import opened Resolution
  import Enumeration
  import Output

  /** The names a run records, in the order a sequential run records them. */
  function Discover(domain: string, nonce: Nanos, lines: seq<string>, resolve: string -> Lookup): (found: seq<string>)
    ensures |found| <= |lines|
    ensures forall name :: name in found ==> Accepted(DetectWildcard(domain, nonce, resolve), resolve(name))
  {
    var wildcard := DetectWildcard(domain, nonce, resolve);
    var words := Wordlist.LoadWordlist(lines);
    Enumeration.EnumerateSound(domain, wildcard, resolve, words);
    Enumeration.Enumerate(domain, wildcard, resolve, words)
  }

  /**
   * The run: the names found and, when `writeOutput` holds, the text of
   * the output file.
   */
  method Execute(domain: string, nonce: Nanos, lines: seq<string>, resolve: string -> Lookup, writeOutput: bool)
    returns (found: seq<string>, saved: Option<string>)
    ensures found == Discover(domain, nonce, lines, resolve)
    ensures saved == (if writeOutput then Some(Output.Serialise(found)) else None)
  {
    var wildcard := DetectWildcard(domain, nonce, resolve);
    var subdomains := Wordlist.LoadWordlist(lines);
    var enumerator := new Enumeration.Enumerator(domain, wildcard);
    enumerator.Run(subdomains, resolve);
    found := enumerator.found;
    if writeOutput {
      var file := Output.SaveResults(found);
      saved := Some(file.contents);
    } else {
      saved := None;
    }
  }

  /**
   * When neither the domain nor any wordlist line holds a newline (lines
   * read from a file never do), the saved file reads back as the list of
   * names found.
   */
  lemma SavedResultsReadBack(domain: string, nonce: Nanos, lines: seq<string>, resolve: string -> Lookup)
    requires '\n' !in domain
    requires forall l :: l in lines ==> '\n' !in l
    ensures Output.SplitLines(Output.Serialise(Discover(domain, nonce, lines, resolve)))
      == Discover(domain, nonce, lines, resolve)
  {
    var wildcard := DetectWildcard(domain, nonce, resolve);
    var words := Wordlist.LoadWordlist(lines);
    Wordlist.LoadWordlistWithout(lines, '\n');
    Enumeration.EnumerateWithout(domain, wildcard, resolve, words, '\n');
    Output.SplitSerialise(Discover(domain, nonce, lines, resolve));
  }
}
