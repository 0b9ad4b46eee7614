/** Numbered tags: zero-padded decimals, and the search for one that is not in use. */
module Tags {

  /** Case folding is character by character; digits fold to themselves. */
  type Folding = char -> string

  ghost predicate FoldsDigits(fold: Folding) {
    forall d :: '0' <= d <= '9' ==> fold(d) == [d]
  }

  function Folded(fold: Folding, s: string): string {
    if s == "" then "" else fold(s[0]) + Folded(fold, s[1..])
  }

  predicate IsDigits(s: string) {
    forall i :: 0 <= i < |s| ==> '0' <= s[i] <= '9'
  }

  function Digit(n: nat): (c: char)
    requires n < 10
    ensures '0' <= c <= '9'
  {
    '0' + n as char
  }

  function Decimal(n: nat): (s: string)
    ensures IsDigits(s) && s != ""
  {
    if n < 10 then [Digit(n)] else Decimal(n / 10) + [Digit(n % 10)]
  }

  function Zeros(n: nat): (s: string)
    ensures |s| == n && IsDigits(s)
  {
    if n == 0 then "" else Zeros(n - 1) + "0"
  }

  /** The decimal with zeros before it up to a width. */
  function Padded(n: nat, width: nat): (s: string)
    ensures IsDigits(s)
  {
    var s := Decimal(n);
    (if |s| < width then Zeros(width - |s|) else "") + s
  }

  /** The number a string of digits writes. */
  function Value(s: string): nat
    requires IsDigits(s)
  {
    if s == "" then 0 else Value(s[..|s| - 1]) * 10 + (s[|s| - 1] as int - '0' as int)
  }

  lemma {:induction false} ValueOfDecimal(n: nat)
    ensures Value(Decimal(n)) == n
  {
    if n >= 10 {
      ValueOfDecimal(n / 10);
      assert Decimal(n)[..|Decimal(n)| - 1] == Decimal(n / 10);
    }
  }

  lemma {:induction false} ValueAfterZeros(k: nat, s: string)
    requires IsDigits(s)
    ensures IsDigits(Zeros(k) + s) && Value(Zeros(k) + s) == Value(s)
    decreases |s|
  {
    if s == "" {
      assert Zeros(k) + s == Zeros(k);
      ValueOfZeros(k);
    } else {
      ValueAfterZeros(k, s[..|s| - 1]);
      assert (Zeros(k) + s)[..|Zeros(k) + s| - 1] == Zeros(k) + s[..|s| - 1];
    }
  }

  lemma {:induction false} ValueOfZeros(k: nat)
    ensures Value(Zeros(k)) == 0
  {
    if k > 0 {
      ValueOfZeros(k - 1);
      assert Zeros(k)[..|Zeros(k)| - 1] == Zeros(k - 1);
    }
  }

  /** Padding keeps the number: distinct numbers have distinct padded decimals. */
  lemma ValueOfPadded(n: nat, width: nat)
    ensures Value(Padded(n, width)) == n
  {
    ValueOfDecimal(n);
    var s := Decimal(n);
    if |s| < width {
      ValueAfterZeros(width - |s|, s);
    } else {
      assert "" + s == s;
    }
  }

  lemma {:induction false} FoldedAppend(fold: Folding, a: string, b: string)
    ensures Folded(fold, a + b) == Folded(fold, a) + Folded(fold, b)
    decreases |a|
  {
    if a == "" {
      assert a + b == b;
    } else {
      FoldedAppend(fold, a[1..], b);
      assert (a + b)[1..] == a[1..] + b;
    }
  }

  lemma {:induction false} FoldedDigits(fold: Folding, s: string)
    requires FoldsDigits(fold) && IsDigits(s)
    ensures Folded(fold, s) == s
    decreases |s|
  {
    if s != "" { FoldedDigits(fold, s[1..]); }
  }

  /** The automatic tag with a number. */
  function TagOf(prefix: string, padding: nat, n: nat): string {
    prefix + Padded(n, padding)
  }

  lemma {:induction false} DecimalStarts(n: nat)
    ensures n > 0 ==> Decimal(n)[0] != '0'
  {
    if n >= 10 { DecimalStarts(n / 10); }
  }

  /** A tag is its prefix and then the number in at least as many digits as the padding asks for;
      when there are more, the first is no zero. */
  lemma TagIs(prefix: string, padding: nat, n: nat)
    ensures var tag := TagOf(prefix, padding, n);
      && prefix <= tag && IsDigits(tag[|prefix|..]) && Value(tag[|prefix|..]) == n
      && |tag| >= |prefix| + padding && |tag| > |prefix|
      && (|tag| > |prefix| + padding && |tag| > |prefix| + 1 ==> tag[|prefix|] != '0')
  {
    ValueOfPadded(n, padding);
    DecimalStarts(n);
    assert TagOf(prefix, padding, n)[|prefix|..] == Padded(n, padding);
  }

  /** Tags of distinct numbers differ even ignoring case. */
  lemma TagsDiffer(fold: Folding, prefix: string, padding: nat, m: nat, n: nat)
    requires FoldsDigits(fold) && Folded(fold, TagOf(prefix, padding, m)) == Folded(fold, TagOf(prefix, padding, n))
    ensures m == n
  {
    var a, b := Padded(m, padding), Padded(n, padding);
    FoldedAppend(fold, prefix, a);
    FoldedAppend(fold, prefix, b);
    FoldedDigits(fold, a);
    FoldedDigits(fold, b);
    var p := Folded(fold, prefix);
    assert (p + a)[|p|..] == a && (p + b)[|p|..] == b;
    ValueOfPadded(m, padding);
    ValueOfPadded(n, padding);
  }

  /** Nothing from `n` on is in use except what is still in `left`. */
  ghost predicate Covers(fold: Folding, prefix: string, padding: nat, used: set<string>, left: set<string>, n: nat) {
    forall k: nat :: k >= n && Folded(fold, TagOf(prefix, padding, k)) in used ==>
      Folded(fold, TagOf(prefix, padding, k)) in left
  }

  lemma CoversNext(fold: Folding, prefix: string, padding: nat, used: set<string>, left: set<string>, n: nat)
    requires FoldsDigits(fold) && Covers(fold, prefix, padding, used, left, n)
    ensures Covers(fold, prefix, padding, used, left - {Folded(fold, TagOf(prefix, padding, n))}, n + 1)
  {
    forall k: nat | k >= n + 1 && Folded(fold, TagOf(prefix, padding, k)) in used
      ensures Folded(fold, TagOf(prefix, padding, k)) in left - {Folded(fold, TagOf(prefix, padding, n))}
    {
      if Folded(fold, TagOf(prefix, padding, k)) == Folded(fold, TagOf(prefix, padding, n)) {
        TagsDiffer(fold, prefix, padding, k, n);
      }
    }
  }

  /** The number is the first from `from` on whose tag is not in use. */
  ghost predicate IsFirstFree(fold: Folding, prefix: string, padding: nat, used: set<string>, from: nat, n: nat) {
    && from <= n && Folded(fold, TagOf(prefix, padding, n)) !in used
    && forall k: nat :: from <= k < n ==> Folded(fold, TagOf(prefix, padding, k)) in used
  }

  /** The search ends for every finite set of used tags: each number tried and found in use takes
      one tag off the ones still to meet. */
  function FreeFrom(fold: Folding, prefix: string, padding: nat, used: set<string>, from: nat,
      ghost left: set<string>): (n: nat)
    requires FoldsDigits(fold) && left <= used && Covers(fold, prefix, padding, used, left, from)
    ensures IsFirstFree(fold, prefix, padding, used, from, n)
    decreases |left|
  {
    var tag := Folded(fold, TagOf(prefix, padding, from));
    if tag !in used then from
    else
      CoversNext(fold, prefix, padding, used, left, from);
      assert |left - {tag}| < |left|;
      FreeFrom(fold, prefix, padding, used, from + 1, left - {tag})
  }

  function FirstFree(fold: Folding, prefix: string, padding: nat, used: set<string>, from: nat): (n: nat)
    requires FoldsDigits(fold)
    ensures IsFirstFree(fold, prefix, padding, used, from, n)
  {
    FreeFrom(fold, prefix, padding, used, from, used)
  }

  lemma FirstFreeIsUnique(fold: Folding, prefix: string, padding: nat, used: set<string>, from: nat, m: nat, n: nat)
    requires IsFirstFree(fold, prefix, padding, used, from, m) && IsFirstFree(fold, prefix, padding, used, from, n)
    ensures m == n
  {
  }

  /** The naming loop. */
  method NextTag(fold: Folding, prefix: string, padding: nat, used: set<string>, from: nat)
      returns (tag: string, number: nat)
    requires FoldsDigits(fold)
    ensures number > from && tag == TagOf(prefix, padding, number - 1)
    ensures Folded(fold, tag) !in used
    ensures number - 1 == FirstFree(fold, prefix, padding, used, from)
  {
    number := from;
    ghost var left := used;
    while true
      invariant number >= from && left <= used && Covers(fold, prefix, padding, used, left, number)
      invariant forall k: nat :: from <= k < number ==> Folded(fold, TagOf(prefix, padding, k)) in used
      decreases |left|
    {
      tag := TagOf(prefix, padding, number);
      number := number + 1;
      if Folded(fold, tag) !in used { break; }
      CoversNext(fold, prefix, padding, used, left, number - 1);
      assert |left - {Folded(fold, tag)}| < |left|;
      left := left - {Folded(fold, tag)};
    }
    FirstFreeIsUnique(fold, prefix, padding, used, from, number - 1, FirstFree(fold, prefix, padding, used, from));
  }
}
