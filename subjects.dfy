/**
 * The BIDS subject label of run_pipeline.py: `sub-` followed by the subject
 * with every character other than an ASCII letter or digit removed.
 */
module Subjects {

  /** The character class `[a-zA-Z0-9]`: ASCII letters and digits only. */
  predicate IsAlnum(c: char) {
    'a' <= c <= 'z' || 'A' <= c <= 'Z' || '0' <= c <= '9'
  }

  /** `re.sub(r"[^a-zA-Z0-9]", "", s)`: every other character removed. */
  function KeepAlnum(s: string): string {
    if s == [] then ""
    else (if IsAlnum(s[0]) then [s[0]] else "") + KeepAlnum(s[1..])
  }

  /** The sanitised subject used for every stage after the conversion. */
  function BidsSubject(raw: string): string {
    "sub-" + KeepAlnum(raw)
  }

  /** The label starts with `sub-` and is alphanumeric after it, so it holds no `/` or `.`. */
  lemma BidsSubjectShape(raw: string)
    ensures var r := BidsSubject(raw);
      && |r| >= 4 && r[..4] == "sub-"
      && (forall i :: 4 <= i < |r| ==> IsAlnum(r[i]))
      && '/' !in r && '.' !in r
  {
    KeepAlnumAlnum(raw);
    var r := BidsSubject(raw);
    assert forall i :: 4 <= i < |r| ==> r[i] == KeepAlnum(raw)[i - 4];
  }

  /** Only letters and digits are kept. */
  lemma {:induction false} KeepAlnumAlnum(s: string)
    ensures forall i :: 0 <= i < |KeepAlnum(s)| ==> IsAlnum(KeepAlnum(s)[i])
  {
    if s != [] {
      KeepAlnumAlnum(s[1..]);
      var head: string := if IsAlnum(s[0]) then [s[0]] else "";
      forall i | 0 <= i < |KeepAlnum(s)| ensures IsAlnum(KeepAlnum(s)[i]) {
        if i >= |head| {
          assert KeepAlnum(s)[i] == KeepAlnum(s[1..])[i - |head|];
        }
      }
    }
  }

  /** The number of letters and digits in `s`. */
  function CountAlnum(s: string): nat {
    if s == [] then 0 else (if IsAlnum(s[0]) then 1 else 0) + CountAlnum(s[1..])
  }

  /** The filter works piecewise: it keeps the letters and digits of each part, in order. */
  lemma {:induction false} KeepAlnumConcat(a: string, b: string)
    ensures KeepAlnum(a + b) == KeepAlnum(a) + KeepAlnum(b)
  {
    if a == [] {
      assert a + b == b;
    } else {
      assert (a + b)[0] == a[0];
      assert (a + b)[1..] == a[1..] + b;
      KeepAlnumConcat(a[1..], b);
      var head: string := if IsAlnum(a[0]) then [a[0]] else "";
      assert KeepAlnum(a + b) == head + (KeepAlnum(a[1..]) + KeepAlnum(b));
      assert KeepAlnum(a) == head + KeepAlnum(a[1..]);
    }
  }

  /** Exactly the letters and digits of the token survive. */
  lemma {:induction false} KeepAlnumMembers(s: string, c: char)
    ensures c in KeepAlnum(s) <==> c in s && IsAlnum(c)
  {
    if s != [] {
      KeepAlnumMembers(s[1..], c);
      assert s == [s[0]] + s[1..];
    }
  }

  /** The label has one character per letter or digit of the raw token after the "sub-" prefix. */
  lemma {:induction false} BidsSubjectLength(raw: string)
    ensures |BidsSubject(raw)| == 4 + CountAlnum(raw)
  {
    KeepAlnumLength(raw);
  }

  lemma {:induction false} KeepAlnumLength(s: string)
    ensures |KeepAlnum(s)| == CountAlnum(s)
  {
    if s != [] {
      KeepAlnumLength(s[1..]);
    }
  }

  /** A token of letters and digits is left as it is, and only such a token is. */
  lemma {:induction false} KeepAlnumFixedPoint(s: string)
    ensures KeepAlnum(s) == s <==> forall i :: 0 <= i < |s| ==> IsAlnum(s[i])
  {
    KeepAlnumAlnum(s);
    if s != [] && forall i :: 0 <= i < |s| ==> IsAlnum(s[i]) {
      assert forall i :: 0 <= i < |s[1..]| ==> IsAlnum(s[1..][i]) by {
        forall i | 0 <= i < |s[1..]| ensures IsAlnum(s[1..][i]) { assert s[1..][i] == s[i + 1]; }
      }
      KeepAlnumFixedPoint(s[1..]);
      assert [s[0]] + s[1..] == s;
    }
  }

  /** Re-filtering the part after "sub-" changes nothing. */
  lemma BidsSubjectSuffixStable(raw: string)
    ensures KeepAlnum(BidsSubject(raw)[4..]) == BidsSubject(raw)[4..]
  {
    assert BidsSubject(raw)[4..] == KeepAlnum(raw);
    KeepAlnumAlnum(raw);
    KeepAlnumFixedPoint(KeepAlnum(raw));
  }

  /**
   * The whole transform is not idempotent: the '-' of "sub-" is dropped and
   * "sub" is kept, so a label sanitised twice gains a second "sub".
   */
  lemma BidsSubjectTwice(raw: string)
    ensures BidsSubject(BidsSubject(raw)) == "sub-sub" + KeepAlnum(raw)
    ensures BidsSubject(BidsSubject(raw)) != BidsSubject(raw)
  {
    var k := KeepAlnum(raw);
    KeepAlnumAlnum(raw);
    SanitisedTwice(k);
    assert BidsSubject(BidsSubject(raw)) == "sub-" + KeepAlnum("sub-" + k);
    assert "sub-" + ("sub" + k) == "sub-sub" + k;
    assert |BidsSubject(BidsSubject(raw))| == |BidsSubject(raw)| + 3;
  }

  /** Filtering a label whose part after `sub-` is already alphanumeric drops only the `-`. */
  lemma SanitisedTwice(k: string)
    requires forall i :: 0 <= i < |k| ==> IsAlnum(k[i])
    ensures KeepAlnum("sub-" + k) == "sub" + k
  {
    KeepAlnumConcat("sub-", k);
    KeepAlnumFixedPoint(k);
    PrefixFiltered();
  }

  /** Filtering the prefix keeps `sub` and drops the `-`. */
  lemma PrefixFiltered()
    ensures KeepAlnum("sub-") == "sub"
  {
    assert KeepAlnum("-") == "";
    assert KeepAlnum("b-") == "b";
    assert KeepAlnum("ub-") == "ub";
  }
}
