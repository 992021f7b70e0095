/** Optional values, shared by the models. */
module Options {
  datatype Option<+T> = None | Some(value: T)
}

/** The code-point order of strings and sorting a set of them, as Python's `sorted` does. */
module Symbols {
  import Sorting

  predicate Less(a: string, b: string) {
    b != [] && (a == [] || a[0] < b[0] || (a[0] == b[0] && Less(a[1..], b[1..])))
  }

  lemma {:induction false} LessIsTotal(a: string, b: string)
    ensures a == b || Less(a, b) || Less(b, a)
    ensures !(Less(a, b) && Less(b, a)) && !Less(a, a)
  {
    if a != [] {
      LessIsTotal(a[1..], if b == [] then [] else b[1..]);
      assert b != [] && a[0] == b[0] && a[1..] == b[1..] ==> a == [a[0]] + a[1..] == b;
    }
  }

  /** The texts agree on the first `k` characters; then the first one ends, or has the smaller code point. */
  predicate PartAt(a: string, b: string, k: int) {
    0 <= k <= |a| && k < |b| && a[..k] == b[..k] && (k == |a| || a[k] as int < b[k] as int)
  }

  /** The order is decided where two texts part. */
  lemma {:induction false} LessExactly(a: string, b: string)
    ensures Less(a, b) <==> exists k :: PartAt(a, b, k)
  {
    if a != [] && b != [] && a[0] == b[0] {
      LessExactly(a[1..], b[1..]);
      if k :| PartAt(a[1..], b[1..], k) {
        assert a[..k + 1] == [a[0]] + a[1..][..k] && b[..k + 1] == [b[0]] + b[1..][..k];
        assert PartAt(a, b, k + 1);
      }
      if k :| PartAt(a, b, k) {
        assert k > 0;
        assert a[1..][..k - 1] == a[..k][1..] && b[1..][..k - 1] == b[..k][1..];
        assert PartAt(a[1..], b[1..], k - 1);
      }
    } else {
      assert Less(a, b) ==> PartAt(a, b, 0);
      if k :| PartAt(a, b, k) {
        assert k > 0 ==> a[..k][0] == b[..k][0];
      }
    }
  }

  lemma {:induction false} LessIsTransitive(a: string, b: string, c: string)
    requires Less(a, b) && Less(b, c)
    ensures Less(a, c)
  {
    if a != [] && a[0] == b[0] == c[0] {
      LessIsTransitive(a[1..], b[1..], c[1..]);
    }
  }

  lemma LessIsStrictOrder()
    ensures Sorting.StrictOrder(Less)
  {
    forall a, b ensures (Less(a, b) || Less(b, a) || a == b) && !Less(a, a) {
      LessIsTotal(a, b);
    }
    forall a, b, c | Less(a, b) && Less(b, c) ensures Less(a, c) {
      LessIsTransitive(a, b, c);
    }
  }

  /** In code-point order, without repetitions. */
  predicate Sorted(s: seq<string>) {
    Sorting.Sorted(s, Less)
  }

  /** Upper-casing of the Latin letters. */
  function Upper(s: string): string {
    if s == [] then []
    else [if 'a' <= s[0] <= 'z' then s[0] - 'a' + 'A' else s[0]] + Upper(s[1..])
  }

  lemma {:induction false} UpperAppend(a: string, b: string)
    ensures Upper(a + b) == Upper(a) + Upper(b)
  {
    if a == [] {
      assert a + b == b;
    } else {
      assert (a + b)[1..] == a[1..] + b;
      UpperAppend(a[1..], b);
    }
  }

  /** Letter by letter: the 26 small ones become the capitals, the others stay. */
  lemma {:induction false} UpperAt(s: string, i: nat)
    requires i < |s|
    ensures |Upper(s)| == |s|
    ensures Upper(s)[i] as int == s[i] as int - if 97 <= s[i] as int < 123 then 32 else 0
    decreases |s|
  {
    if i > 0 {
      UpperAt(s[1..], i - 1);
    } else if |s| > 1 {
      UpperAt(s[1..], 0);
    }
  }

  /** The text spells a word of capitals in letters of either size. */
  predicate InLetters(text: string, word: string) {
    && |text| == |word|
    && forall i :: 0 <= i < |word| ==>
         text[i] == word[i] || (65 <= word[i] as int < 91 && text[i] as int == word[i] as int + 32)
  }

  lemma UpperIsWord(text: string, word: string)
    requires forall i :: 0 <= i < |word| ==> !(97 <= word[i] as int < 123)
    ensures Upper(text) == word <==> InLetters(text, word)
  {
    hide Upper;
    if text == [] {
      UpperOfNothing();
    } else {
      UpperAt(text, 0);
    }
    forall i | 0 <= i < |text|
      ensures |Upper(text)| == |text| && Upper(text)[i] as int == text[i] as int - if 97 <= text[i] as int < 123 then 32 else 0
    {
      UpperAt(text, i);
    }
  }

  lemma UpperOfNothing()
    ensures Upper("") == ""
  {
  }
}
