/** Predicates on lines of output text, shared by the report builder and
    the command-line status renderer. */
module Lines {

  /** The line `lead + value`, present only when `value` is non-empty
      (Python's truthiness test on a string). */
  function Optional(lead: string, value: string): seq<string> {
    if value != "" then [lead + value] else []
  }

  function Count(value: string): nat {
    if value != "" then 1 else 0
  }

  predicate StartsWith(s: string, prefix: string) {
    |prefix| <= |s| && s[..|prefix|] == prefix
  }

  /** Some line of `lines` begins with `lead`. */
  predicate HasLabel(lines: seq<string>, lead: string) {
    exists k :: 0 <= k < |lines| && StartsWith(lines[k], lead)
  }

  /** A line whose `k`-th character differs from the lead's does not start with it. */
  lemma Differs(s: string, lead: string, k: nat)
    requires k < |lead| && k < |s| && s[k] != lead[k]
    ensures !StartsWith(s, lead)
  {
  }

  lemma PrefixOf(lead: string, v: string)
    ensures StartsWith(lead + v, lead)
  {
    assert (lead + v)[..|lead|] == lead;
  }

  lemma HasLabelConcat(a: seq<string>, b: seq<string>, lead: string)
    ensures HasLabel(a + b, lead) <==> HasLabel(a, lead) || HasLabel(b, lead)
  {
    if HasLabel(a + b, lead) {
      var k :| 0 <= k < |a + b| && StartsWith((a + b)[k], lead);
      if k >= |a| {
        assert b[k - |a|] == (a + b)[k];
      }
    }
    if HasLabel(a, lead) {
      var k :| 0 <= k < |a| && StartsWith(a[k], lead);
      assert (a + b)[k] == a[k];
    }
    if HasLabel(b, lead) {
      var k :| 0 <= k < |b| && StartsWith(b[k], lead);
      assert (a + b)[|a| + k] == b[k];
    }
  }
}
