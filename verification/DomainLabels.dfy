/** Domain names as label lists, and what it means for one to end in another. */
module DomainLabels {
  import opened Text

  /** The labels of a name, top-level domain first; case and empty labels do not count. */
  function Labels(name: string): seq<string> {
    Reverse(NonEmpty(Split(Lower(name), '.')))
  }

  predicate NoEmptyLabel(name: string) {
    [] !in Split(Lower(name), '.')
  }

  /** `name` is `suffix`, or ends in a dot and `suffix`, in any mix of cases. */
  predicate IsWithin(name: string, suffix: string) {
    EqIgnoreCase(name, suffix) || exists k | 0 <= k < |name| :: name[k] == '.' && EqIgnoreCase(name[k + 1..], suffix)
  }

  lemma {:induction false} ReverseAppend<T>(a: seq<T>, b: seq<T>)
    ensures Reverse(a + b) == Reverse(b) + Reverse(a)
  {
    if a == [] {
      assert a + b == b;
    } else {
      assert (a + b)[1..] == a[1..] + b;
      ReverseAppend(a[1..], b);
    }
  }

  lemma {:induction false} ReverseTwice<T>(s: seq<T>)
    ensures Reverse(Reverse(s)) == s && |Reverse(s)| == |s|
  {
    if s != [] {
      ReverseTwice(s[1..]);
      ReverseAppend(Reverse(s[1..]), [s[0]]);
    }
  }

  lemma EqualLengthPrefixes<T>(x: seq<T>, y: seq<T>, rest: seq<T>)
    requires x <= y + rest && |x| == |y|
    ensures x == y
  {
    assert forall i | 0 <= i < |x| :: x[i] == (y + rest)[i];
  }

  lemma ReversedPrefix<T>(a: seq<T>, b: seq<T>)
    requires Reverse(b) <= Reverse(a)
    ensures |b| <= |a| && a[|a| - |b|..] == b
  {
    hide Reverse;
    ReverseTwice(a);
    ReverseTwice(b);
    var front, back := a[..|a| - |b|], a[|a| - |b|..];
    assert a == front + back;
    ReverseAppend(front, back);
    ReverseTwice(back);
    EqualLengthPrefixes(Reverse(b), Reverse(back), Reverse(front));
  }

  lemma PrefixMeansWithin(name: string, suffix: string)
    requires Reverse(Split(Lower(suffix), '.')) <= Reverse(Split(Lower(name), '.'))
    ensures IsWithin(name, suffix)
  {
    hide Split, Reverse, Join;
    var a, b := Split(Lower(name), '.'), Split(Lower(suffix), '.');
    ReversedPrefix(a, b);
    var n := |a| - |b|;
    JoinOfSplit(Lower(name), '.');
    JoinOfSplit(Lower(suffix), '.');
    if n == 0 {
      assert a == b;
    } else {
      assert a == a[..n] + b;
      JoinAppend(a[..n], b, '.');
      EndsAfterDot(name, Join(a[..n], '.'), suffix);
    }
  }

  lemma EndsAfterDot(name: string, front: string, suffix: string)
    requires Lower(name) == front + ['.'] + Lower(suffix)
    ensures IsWithin(name, suffix)
  {
    var k := |front|;
    assert Lower(name)[k] == '.' && Lower(name)[k + 1..] == Lower(suffix);
    assert name[k] == '.';
    assert Lower(name[k + 1..]) == Lower(name)[k + 1..];
  }

  lemma WithinMeansPrefix(name: string, suffix: string)
    requires IsWithin(name, suffix)
    ensures Reverse(Split(Lower(suffix), '.')) <= Reverse(Split(Lower(name), '.'))
  {
    hide Split, Reverse;
    if !EqIgnoreCase(name, suffix) {
      var k :| 0 <= k < |name| && name[k] == '.' && EqIgnoreCase(name[k + 1..], suffix);
      assert Lower(name) == Lower(name[..k]) + ['.'] + Lower(suffix);
      SplitAppend(Lower(name[..k]), '.', Lower(suffix));
      ReverseAppend(Split(Lower(name[..k]), '.'), Split(Lower(suffix), '.'));
    }
  }

  /** The trie's test, one label list a prefix of the other, is the textual one. */
  lemma LabelsMeanWithin(name: string, suffix: string)
    requires NoEmptyLabel(name) && NoEmptyLabel(suffix)
    ensures Labels(suffix) <= Labels(name) <==> IsWithin(name, suffix)
  {
    hide Split, Reverse, NonEmpty, IsWithin;
    NonEmptyOfNonEmpty(Split(Lower(name), '.'));
    NonEmptyOfNonEmpty(Split(Lower(suffix), '.'));
    if Labels(suffix) <= Labels(name) {
      PrefixMeansWithin(name, suffix);
    }
    if IsWithin(name, suffix) {
      WithinMeansPrefix(name, suffix);
    }
  }

  // ---------- Suffixes without labels ----------

  predicate OnlyDots(name: string) {
    forall i | 0 <= i < |name| :: name[i] == '.'
  }

  lemma {:induction false} DotsHaveNoLabels(name: string)
    ensures NonEmpty(Split(name, '.')) == [] <==> OnlyDots(name)
  {
    if name != [] {
      DotsHaveNoLabels(name[1..]);
      assert OnlyDots(name) <==> name[0] == '.' && OnlyDots(name[1..]);
    }
  }

  lemma {:induction false} ReverseOfNone<T>(s: seq<T>)
    ensures Reverse(s) == [] <==> s == []
  {
    ReverseTwice(s);
  }

  /** A suffix covers every name exactly when it consists of nothing but dots. */
  lemma DotsCoverEveryName(suffix: string)
    ensures (forall name :: Labels(suffix) <= Labels(name)) <==> OnlyDots(suffix)
  {
    var low := Lower(suffix);
    DotsHaveNoLabels(low);
    ReverseOfNone(NonEmpty(Split(low, '.')));
    assert OnlyDots(suffix) <==> OnlyDots(low) by { LowerKeepsDots(suffix); }
    assert Labels("") == [] by {
      assert Lower("") == "";
      DotsHaveNoLabels("");
      ReverseOfNone(NonEmpty(Split<char>("", '.')));
    }
    hide Split, NonEmpty, Reverse, Lower;
    if forall name :: Labels(suffix) <= Labels(name) {
      assert Labels(suffix) <= Labels("");
    }
  }

  lemma LowerKeepsDots(name: string)
    ensures OnlyDots(name) <==> OnlyDots(Lower(name))
  {
    assert forall i | 0 <= i < |name| :: Lower(name)[i] == '.' <==> name[i] == '.';
  }
}
