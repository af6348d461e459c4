/** Names a certificate is filed under (internal/layout/layout.go), ASCII hostnames. */
module Names {

  const COMPANION_SUFFIX: string := "+rsa"

  function LowerChar(c: char): char {
    if 'A' <= c <= 'Z' then (c as int + 32) as char else c
  }

  function Lower(s: string): (r: string)
    ensures |r| == |s|
    ensures forall i :: 0 <= i < |s| ==> r[i] == LowerChar(s[i])
  {
    if s == [] then [] else [LowerChar(s[0])] + Lower(s[1..])
  }

  /** Capitals become the small letters of the same place, and nothing else changes. */
  lemma {:induction false} LowerIsAscii(c: char)
    ensures if 'A' <= c <= 'Z' then 'a' <= LowerChar(c) <= 'z' && LowerChar(c) as int - 'a' as int == c as int - 'A' as int
            else LowerChar(c) == c
  {
  }

  predicate IsCompanion(name: string) {
    |name| >= |COMPANION_SUFFIX| && name[|name| - |COMPANION_SUFFIX|..] == COMPANION_SUFFIX
  }

  function Companion(domain: string): string {
    Lower(domain) + COMPANION_SUFFIX
  }

  function CertDomain(name: string): string {
    if IsCompanion(name) then name[..|name| - |COMPANION_SUFFIX|] else name
  }

  /** The hostname a name's attempts, and its lease, count against. */
  function BudgetKey(name: string): string {
    Lower(CertDomain(name))
  }

  /** A companion shares its domain's budget and lease, and spelling does not matter. */
  lemma {:induction false} CompanionShares(domain: string)
    ensures Companion(domain)[|domain|..] == "+rsa"
    ensures BudgetKey(Companion(domain)) == BudgetKey(domain) <==> !IsCompanion(domain)
    ensures CertDomain(Companion(domain)) == Lower(domain)
    ensures !IsCompanion(domain) && !IsCompanion(Lower(domain)) ==> BudgetKey(Lower(domain)) == BudgetKey(domain)
  {
    var n := Companion(domain);
    assert n[|n| - |COMPANION_SUFFIX|..] == COMPANION_SUFFIX;
    assert n[..|n| - |COMPANION_SUFFIX|] == Lower(domain);
    assert Lower(Lower(domain)) == Lower(domain);
  }
}
