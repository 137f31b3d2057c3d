/** The default name of a node made from a pane: the node type and the least number not yet taken. */
module FreshName {
  import Decimals

  function Candidate(nodeType: string, n: nat): string {
    nodeType + (if nodeType == "table" then "_" else "-") + Decimals.Spell(n)
  }

  /** A candidate is the node type, an underscore for a table and a hyphen otherwise, and the number. */
  lemma CandidateReads(nodeType: string, n: nat)
    ensures
      var c, k := Candidate(nodeType, n), |nodeType|;
      && |c| > k + 1 && c[..k] == nodeType && c[k] == (if nodeType == "table" then '_' else '-')
      && Decimals.AllDigits(c[k + 1..]) && Decimals.Read(c[k + 1..]) == n && (n > 0 ==> c[k + 1] != '0')
  {
    var c, k := Candidate(nodeType, n), |nodeType|;
    assert c[k + 1..] == Decimals.Spell(n);
    Decimals.ReadSpell(n);
    Decimals.NoLeadingZero(n);
  }

  function Candidates(nodeType: string, n: nat): set<string> {
    set i: nat | 1 <= i <= n :: Candidate(nodeType, i)
  }

  lemma CandidateInjective(nodeType: string, m: nat, n: nat)
    requires Candidate(nodeType, m) == Candidate(nodeType, n)
    ensures m == n
  {
    Decimals.PrefixedInjective(nodeType + if nodeType == "table" then "_" else "-", m, n);
  }

  lemma {:induction false} CandidatesSize(nodeType: string, n: nat)
    ensures |Candidates(nodeType, n)| == n
  {
    if n > 0 {
      CandidatesSize(nodeType, n - 1);
      if Candidate(nodeType, n) in Candidates(nodeType, n - 1) {
        var i: nat :| 1 <= i <= n - 1 && Candidate(nodeType, i) == Candidate(nodeType, n);
        CandidateInjective(nodeType, i, n);
      }
      assert Candidates(nodeType, n) == Candidates(nodeType, n - 1) + {Candidate(nodeType, n)};
    }
  }

  lemma SubsetSize(a: set<string>, b: set<string>)
    requires a <= b
    ensures |a| <= |b|
  {
    assert b == a + (b - a);
  }

  /** If the first `n` candidates are all taken, there are at least `n` taken names. */
  lemma Pigeonhole(nodeType: string, taken: set<string>, n: nat)
    requires forall i: nat :: 1 <= i <= n ==> Candidate(nodeType, i) in taken
    ensures n <= |taken|
  {
    CandidatesSize(nodeType, n);
    SubsetSize(Candidates(nodeType, n), taken);
  }

  /** `new Set(takenNames.filter(Boolean))`. */
  function Taken(names: seq<string>): set<string> {
    set s | s in names && s != ""
  }

  /** `nextAvailableName`: the name is free, its number is the least that is, and it is at most one
      more than the number of different taken names. */
  method NextAvailableName(nodeType: string, takenNames: seq<string>) returns (name: string, counter: nat)
    ensures name == Candidate(nodeType, counter) && name !in takenNames
    ensures forall i: nat :: 1 <= i < counter ==> Candidate(nodeType, i) in takenNames
    ensures 1 <= counter <= |Taken(takenNames)| + 1
  {
    var existingNames := Taken(takenNames);
    counter := 1;
    while Candidate(nodeType, counter) in existingNames
      invariant counter >= 1
      invariant forall i: nat :: 1 <= i < counter ==> Candidate(nodeType, i) in existingNames
      decreases |existingNames| + 1 - counter
    {
      Pigeonhole(nodeType, existingNames, counter);
      counter := counter + 1;
    }
    Pigeonhole(nodeType, existingNames, counter - 1);
    name := Candidate(nodeType, counter);
  }
}
