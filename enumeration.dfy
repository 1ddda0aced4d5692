/**
 * The enumeration loop: one task per candidate, each pushing the
 * candidate's full name onto the shared `found_domains` list when its
 * lookup is accepted. The tasks run sequentially here; the lemmas at the
 * end show that the order in which they complete changes only the order of
 * the list, never its multiset.
 */
module Enumeration {
  import opened Wrappers
  import Seqs
  import opened Resolution

  /** The task for one candidate, with the resolver given as a function of the name. */
  function Task(domain: string, wildcard: Option<Address>, resolve: string -> Lookup): string -> Option<string> {
    sub => Classify(domain, wildcard, sub, resolve(FullDomain(sub, domain)))
  }

  /** The names recorded when the candidates `subs` are processed in list order. */
  function Enumerate(domain: string, wildcard: Option<Address>, resolve: string -> Lookup, subs: seq<string>): (found: seq<string>)
    ensures |found| <= |subs|
  {
    Seqs.FilterMap(Task(domain, wildcard, resolve), subs)
  }

  /** The state shared by the tasks: the root domain, the wildcard and the list of names found. */
  class Enumerator {
    const domain: string
    const wildcard: Option<Address>
    var found: seq<string>

    constructor (domain: string, wildcard: Option<Address>)
      ensures this.domain == domain && this.wildcard == wildcard
      ensures found == []
    {
      this.domain := domain;
      this.wildcard := wildcard;
      found := [];
    }

    /**
     * The body of one task, given the outcome of its lookup: push the full
     * name when the lookup answered with a first address that is not the
     * wildcard's, and otherwise leave the list as it is.
     */
    method Process(sub: string, outcome: Lookup)
      modifies this
      ensures Accepted(wildcard, outcome) ==> found == old(found) + [FullDomain(sub, domain)]
      ensures !Accepted(wildcard, outcome) ==> found == old(found)
    {
      var fullDomain := FullDomain(sub, domain);
      match outcome {
        case Answer(addrs) =>
          if addrs != [] {
            var ipStr := addrs[0];
            var isNoise := IsNoise(wildcard, ipStr);
            if !isNoise {
              found := found + [fullDomain];
            }
          }
        case _ =>
      }
    }

    /** Every candidate in turn: look its name up and process the outcome. */
    method Run(subs: seq<string>, resolve: string -> Lookup)
      modifies this
      ensures found == old(found) + Enumerate(domain, wildcard, resolve, subs)
    {
      var i := 0;
      while i < |subs|
        invariant 0 <= i <= |subs|
        invariant found == old(found) + Enumerate(domain, wildcard, resolve, subs[..i])
      {
        var sub := subs[i];
        Process(sub, resolve(FullDomain(sub, domain)));
        assert subs[..i + 1][..i] == subs[..i];
        i := i + 1;
      }
      assert subs[..|subs|] == subs;
    }
  }

  /**
   * The list holds, in input order, the full names of exactly the
   * candidates whose lookups were accepted.
   */
  lemma EnumerateInInputOrder(domain: string, wildcard: Option<Address>, resolve: string -> Lookup, subs: seq<string>)
    ensures var found, kept := Enumerate(domain, wildcard, resolve, subs), Seqs.Kept(Task(domain, wildcard, resolve), subs);
      |kept| == |found|
      && (forall k, m :: 0 <= k < m < |kept| ==> kept[k] < kept[m])
      && (forall k :: 0 <= k < |kept| ==> kept[k] < |subs| && found[k] == FullDomain(subs[kept[k]], domain))
      && (forall j :: 0 <= j < |subs| ==> (j in kept <==> Accepted(wildcard, resolve(FullDomain(subs[j], domain)))))
  {
    var f := Task(domain, wildcard, resolve);
    var found, kept := Enumerate(domain, wildcard, resolve, subs), Seqs.Kept(f, subs);
    Seqs.FilterMapKept(f, subs);
    forall k | 0 <= k < |kept| ensures found[k] == FullDomain(subs[kept[k]], domain) {
      var sub := subs[kept[k]];
      assert Classify(domain, wildcard, sub, resolve(FullDomain(sub, domain))) == Some(found[k]);
    }
    forall j | 0 <= j < |subs|
      ensures j in kept <==> Accepted(wildcard, resolve(FullDomain(subs[j], domain)))
    {
      assert f(subs[j]) == Classify(domain, wildcard, subs[j], resolve(FullDomain(subs[j], domain)));
    }
  }

  /**
   * Every recorded name resolved to addresses, the first of which is not
   * the wildcard's.
   */
  lemma EnumerateSound(domain: string, wildcard: Option<Address>, resolve: string -> Lookup, subs: seq<string>)
    ensures forall name :: name in Enumerate(domain, wildcard, resolve, subs) ==> Accepted(wildcard, resolve(name))
  {
    var f := Task(domain, wildcard, resolve);
    var found, kept := Enumerate(domain, wildcard, resolve, subs), Seqs.Kept(f, subs);
    Seqs.FilterMapKept(f, subs);
    forall k | 0 <= k < |found| ensures Accepted(wildcard, resolve(found[k])) {
      var sub := subs[kept[k]];
      assert Classify(domain, wildcard, sub, resolve(FullDomain(sub, domain))) == Some(found[k]);
    }
  }

  /**
   * Without a wildcard nothing is filtered: every candidate whose lookup
   * answered with an address is recorded.
   */
  lemma NoWildcardRecordsEveryAnswer(domain: string, resolve: string -> Lookup, subs: seq<string>)
    ensures forall j :: 0 <= j < |subs| ==>
      (resolve(FullDomain(subs[j], domain)).Answer? && resolve(FullDomain(subs[j], domain)).addrs != []
       ==> FullDomain(subs[j], domain) in Enumerate(domain, None, resolve, subs))
  {
    var f := Task(domain, None, resolve);
    var found, kept := Enumerate(domain, None, resolve, subs), Seqs.Kept(f, subs);
    Seqs.FilterMapKept(f, subs);
    forall j | 0 <= j < |subs| && resolve(FullDomain(subs[j], domain)).Answer?
      && resolve(FullDomain(subs[j], domain)).addrs != []
      ensures FullDomain(subs[j], domain) in found
    {
      assert j in kept;
      var k :| 0 <= k < |kept| && kept[k] == j;
      assert f(subs[j]) == Some(found[k]);
    }
  }

  /**
   * Processing the candidates in any order records the same multiset of
   * names: the completion order of the concurrent tasks does not matter.
   */
  lemma EnumerateOrderIndependent(domain: string, wildcard: Option<Address>, resolve: string -> Lookup, subs: seq<string>, order: seq<string>)
    requires multiset(order) == multiset(subs)
    ensures multiset(Enumerate(domain, wildcard, resolve, order)) == multiset(Enumerate(domain, wildcard, resolve, subs))
  {
    Seqs.FilterMapPermutation(Task(domain, wildcard, resolve), order, subs);
  }

  /**
   * Processing two batches one after the other appends their results; in
   * particular nothing is deduplicated, so a repeated candidate is recorded
   * once per occurrence.
   */
  lemma EnumerateAppend(domain: string, wildcard: Option<Address>, resolve: string -> Lookup, subs: seq<string>, more: seq<string>)
    ensures Enumerate(domain, wildcard, resolve, subs + more)
      == Enumerate(domain, wildcard, resolve, subs) + Enumerate(domain, wildcard, resolve, more)
  {
    Seqs.FilterMapAppend(Task(domain, wildcard, resolve), subs, more);
  }

  /** A candidate listed twice whose lookup is accepted appears twice. */
  lemma DuplicateCandidateRecordedTwice(domain: string, wildcard: Option<Address>, resolve: string -> Lookup, sub: string)
    requires Accepted(wildcard, resolve(FullDomain(sub, domain)))
    ensures Enumerate(domain, wildcard, resolve, [sub, sub]) == [FullDomain(sub, domain), FullDomain(sub, domain)]
  {
    EnumerateAppend(domain, wildcard, resolve, [sub], [sub]);
    assert [sub] + [sub] == [sub, sub];
    assert [sub][..0] == [];
  }

  /** A character that neither the domain nor any candidate holds is in no recorded name. */
  lemma EnumerateWithout(domain: string, wildcard: Option<Address>, resolve: string -> Lookup, subs: seq<string>, c: char)
    requires c != '.' && c !in domain
    requires forall s :: s in subs ==> c !in s
    ensures forall name :: name in Enumerate(domain, wildcard, resolve, subs) ==> c !in name
  {
    var found, kept := Enumerate(domain, wildcard, resolve, subs), Seqs.Kept(Task(domain, wildcard, resolve), subs);
    EnumerateInInputOrder(domain, wildcard, resolve, subs);
    forall k | 0 <= k < |found| ensures c !in found[k] {
      assert subs[kept[k]] in subs;
    }
  }
}
