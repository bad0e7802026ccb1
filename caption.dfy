/**
 * The caption option list of `updateCaption`: the category texts sorted with
 * `d3.descending`, each written as an option tagged `N-1-k` and marked selected
 * when its text equals the caption.
 */
module Caption {

  /** JavaScript `a < b` on strings: lexicographic order of the characters. */
  predicate StrLess(a: string, b: string)
    decreases |a|
  {
    if |a| == 0 then |b| > 0
    else if |b| == 0 then false
    else if a[0] != b[0] then a[0] < b[0]
    else StrLess(a[1..], b[1..])
  }

  lemma {:induction false} StrLessIrreflexive(a: string)
    ensures !StrLess(a, a)
    decreases |a|
  {
    if |a| > 0 { StrLessIrreflexive(a[1..]); }
  }

  lemma {:induction false} StrLessTransitive(a: string, b: string, c: string)
    requires StrLess(a, b) && StrLess(b, c)
    ensures StrLess(a, c)
    decreases |a|
  {
    if |a| > 0 && |b| > 0 && |c| > 0 && a[0] == b[0] && b[0] == c[0] {
      StrLessTransitive(a[1..], b[1..], c[1..]);
    }
  }

  lemma {:induction false} StrLessTotal(a: string, b: string)
    ensures a == b || StrLess(a, b) || StrLess(b, a)
    decreases |a|
  {
    if |a| > 0 && |b| > 0 && a[0] == b[0] {
      StrLessTotal(a[1..], b[1..]);
      if a[1..] == b[1..] {
        assert a == [a[0]] + a[1..] && b == [b[0]] + b[1..];
      }
    }
  }

  lemma StrLessAsymmetric(a: string, b: string)
    requires StrLess(a, b)
    ensures !StrLess(b, a)
  {
    if StrLess(b, a) {
      StrLessTransitive(a, b, a);
      StrLessIrreflexive(a);
    }
  }

  /** `b` is not after `a` in descending order: `d3.descending(a, b) <= 0`. */
  predicate NotBelow(a: string, b: string) {
    !StrLess(a, b)
  }

  lemma NotBelowTransitive(a: string, b: string, c: string)
    requires NotBelow(a, b) && NotBelow(b, c)
    ensures NotBelow(a, c)
  {
    if StrLess(a, c) {
      StrLessTotal(a, b);
      StrLessTotal(b, c);
      if a == b {
      } else if b == c {
      } else {
        StrLessTransitive(b, a, c);
      }
    }
  }

  /** Every earlier element is not below every later one: non-increasing order. */
  ghost predicate IsDescending(s: seq<string>) {
    forall i, j :: 0 <= i < j < |s| ==> NotBelow(s[i], s[j])
  }

  /** Insert `x` into a descending list before the first element not above it. */
  function Insert(x: string, s: seq<string>): seq<string> {
    if s == [] || NotBelow(x, s[0]) then [x] + s else [s[0]] + Insert(x, s[1..])
  }

  /** `lista.sort(descending)`; any correct sort gives this list (see `DescendingPermutationUnique`). */
  function SortDescending(s: seq<string>): seq<string> {
    if s == [] then [] else Insert(s[0], SortDescending(s[1..]))
  }

  lemma DescendingTail(s: seq<string>)
    requires IsDescending(s) && s != []
    ensures IsDescending(s[1..])
  {
    forall i, j | 0 <= i < j < |s| - 1 ensures NotBelow(s[1..][i], s[1..][j]) {
      assert s[1..][i] == s[i + 1] && s[1..][j] == s[j + 1];
    }
  }

  lemma {:induction false} InsertPermutes(x: string, s: seq<string>)
    ensures multiset(Insert(x, s)) == multiset(s) + multiset{x}
    decreases |s|
  {
    if s != [] && !NotBelow(x, s[0]) {
      InsertPermutes(x, s[1..]);
      assert s == [s[0]] + s[1..];
    }
  }

  /** A bound for `x` and for every element of `s` is a bound for every element of `Insert(x, s)`. */
  lemma InsertBound(v: string, x: string, s: seq<string>)
    requires NotBelow(v, x)
    requires forall j :: 0 <= j < |s| ==> NotBelow(v, s[j])
    ensures forall j :: 0 <= j < |Insert(x, s)| ==> NotBelow(v, Insert(x, s)[j])
  {
    InsertPermutes(x, s);
    var ins := Insert(x, s);
    forall j | 0 <= j < |ins| ensures NotBelow(v, ins[j]) {
      assert ins[j] in multiset(ins);
      if ins[j] != x {
        assert ins[j] in multiset(s);
        var k :| 0 <= k < |s| && s[k] == ins[j];
      }
    }
  }

  lemma {:induction false} InsertSorted(x: string, s: seq<string>)
    requires IsDescending(s)
    ensures IsDescending(Insert(x, s))
    decreases |s|
  {
    if s == [] {
    } else if NotBelow(x, s[0]) {
      var r := [x] + s;
      forall i, j | 0 <= i < j < |r| ensures NotBelow(r[i], r[j]) {
        if i == 0 && j > 1 { NotBelowTransitive(x, s[0], s[j - 1]); }
      }
    } else {
      var tail := s[1..];
      DescendingTail(s);
      InsertSorted(x, tail);
      StrLessAsymmetric(x, s[0]);
      InsertBound(s[0], x, tail);
      var ins := Insert(x, tail);
      var r := [s[0]] + ins;
      forall i, j | 0 <= i < j < |r| ensures NotBelow(r[i], r[j]) {
        assert r[j] == ins[j - 1];
        if i > 0 { assert r[i] == ins[i - 1]; }
      }
    }
  }

  /** The sort returns its input in non-increasing order, as a permutation. */
  lemma {:induction false} SortDescendingCorrect(s: seq<string>)
    ensures IsDescending(SortDescending(s))
    ensures multiset(SortDescending(s)) == multiset(s)
    ensures |SortDescending(s)| == |s|
    decreases |s|
  {
    if s != [] {
      SortDescendingCorrect(s[1..]);
      InsertPermutes(s[0], SortDescending(s[1..]));
      InsertSorted(s[0], SortDescending(s[1..]));
      assert s == [s[0]] + s[1..];
    }
    assert |SortDescending(s)| == |multiset(SortDescending(s))|;
  }

  /** Two non-increasing arrangements of the same multiset start with the same text. */
  lemma DescendingSameHead(a: seq<string>, b: seq<string>)
    requires IsDescending(a) && IsDescending(b)
    requires multiset(a) == multiset(b) && |a| > 0
    ensures |b| > 0 && a[0] == b[0]
  {
    assert a[0] in multiset(b);
    var i :| 0 <= i < |b| && b[i] == a[0];
    assert b[0] in multiset(a);
    var j :| 0 <= j < |a| && a[j] == b[0];
    assert NotBelow(b[0], a[0]) by { if i > 0 { assert NotBelow(b[0], b[i]); } else { StrLessIrreflexive(a[0]); } }
    assert NotBelow(a[0], b[0]) by { if j > 0 { assert NotBelow(a[0], a[j]); } else { StrLessIrreflexive(a[0]); } }
    StrLessTotal(a[0], b[0]);
  }

  lemma TailsSameMultiset(a: seq<string>, b: seq<string>)
    requires |a| > 0 && |b| > 0 && a[0] == b[0] && multiset(a) == multiset(b)
    ensures multiset(a[1..]) == multiset(b[1..])
  {
    assert a == [a[0]] + a[1..] && b == [b[0]] + b[1..];
    assert multiset(a[1..]) == multiset(a) - multiset{a[0]};
    assert multiset(b[1..]) == multiset(b) - multiset{b[0]};
  }

  /** A non-increasing arrangement of a multiset is unique, so the sort's output is determined. */
  lemma {:induction false} DescendingPermutationUnique(a: seq<string>, b: seq<string>)
    requires IsDescending(a) && IsDescending(b)
    requires multiset(a) == multiset(b)
    ensures a == b
    decreases |a|
  {
    assert |a| == |multiset(a)| == |multiset(b)| == |b|;
    if |a| > 0 {
      DescendingSameHead(a, b);
      TailsSameMultiset(a, b);
      DescendingTail(a);
      DescendingTail(b);
      DescendingPermutationUnique(a[1..], b[1..]);
      assert a == [a[0]] + a[1..] && b == [b[0]] + b[1..];
    }
  }

  /** One `<option value=tag [selected]>text</option>` of the caption selector. */
  datatype CaptionOption = CaptionOption(value: int, selected: bool, text: string)

  function Texts(opts: seq<CaptionOption>): seq<string> {
    seq(|opts|, k requires 0 <= k < |opts| => opts[k].text)
  }

  /** The option list `updateCaption` writes for the category texts and a caption. */
  function CaptionOptions(categories: seq<string>, caption: string): seq<CaptionOption> {
    OptionsOf(SortDescending(categories), caption)
  }

  /** One option per text of `lista`, in its order; the first is tagged `|lista| - 1`. */
  function OptionsOf(lista: seq<string>, caption: string): seq<CaptionOption>
    decreases |lista|
  {
    if lista == [] then []
    else [CaptionOption(|lista| - 1, lista[0] == caption, lista[0])] + OptionsOf(lista[1..], caption)
  }

  /** Option `k` has the tag `|lista| - 1 - k` and the text `lista[k]`, and is selected iff that text is the caption. */
  lemma {:induction false} OptionsOfAt(lista: seq<string>, caption: string)
    ensures |OptionsOf(lista, caption)| == |lista|
    ensures forall k :: 0 <= k < |lista| ==>
              OptionsOf(lista, caption)[k] == CaptionOption(|lista| - 1 - k, lista[k] == caption, lista[k])
    decreases |lista|
  {
    if lista != [] {
      OptionsOfAt(lista[1..], caption);
      forall k | 1 <= k < |lista|
        ensures OptionsOf(lista, caption)[k] == CaptionOption(|lista| - 1 - k, lista[k] == caption, lista[k])
      {
        assert OptionsOf(lista, caption)[k] == OptionsOf(lista[1..], caption)[k - 1];
        assert lista[1..][k - 1] == lista[k];
      }
    }
  }

  /** The loop of `updateCaption` that appends one option per sorted text. */
  method RenderOptions(categories: seq<string>, caption: string) returns (opts: seq<CaptionOption>)
    ensures opts == CaptionOptions(categories, caption)
  {
    var lista := SortDescending(categories);
    OptionsOfAt(lista, caption);
    opts := [];
    var k := 0;
    while k < |lista|
      invariant 0 <= k <= |lista|
      invariant |opts| == k
      invariant forall j :: 0 <= j < k ==> opts[j] == OptionsOf(lista, caption)[j]
    {
      opts := opts + [CaptionOption(|lista| - 1 - k, lista[k] == caption, lista[k])];
      k := k + 1;
    }
  }

  /**
   * Exactly N options, texts in non-increasing order and a permutation of the
   * categories, option k tagged N-1-k, selected iff its text is the caption.
   */
  lemma CaptionOptionsMeaning(categories: seq<string>, caption: string)
    ensures |CaptionOptions(categories, caption)| == |categories|
    ensures IsDescending(Texts(CaptionOptions(categories, caption)))
    ensures multiset(Texts(CaptionOptions(categories, caption))) == multiset(categories)
    ensures forall k :: 0 <= k < |categories| ==> CaptionOptions(categories, caption)[k].value == |categories| - 1 - k
    ensures forall k :: 0 <= k < |categories| ==>
              (CaptionOptions(categories, caption)[k].selected <==> CaptionOptions(categories, caption)[k].text == caption)
  {
    SortDescendingCorrect(categories);
    OptionsOfAt(SortDescending(categories), caption);
    assert Texts(CaptionOptions(categories, caption)) == SortDescending(categories);
  }

  function Reverse(s: seq<string>): seq<string> {
    seq(|s|, k requires 0 <= k < |s| => s[|s| - 1 - k])
  }

  lemma {:induction false} ReversePermutes(s: seq<string>)
    ensures multiset(Reverse(s)) == multiset(s)
    decreases |s|
  {
    if s != [] {
      ReversePermutes(s[1..]);
      assert Reverse(s) == Reverse(s[1..]) + [s[0]];
      assert s == [s[0]] + s[1..];
    }
  }

  /**
   * When the host delivers the categories in strictly ascending order, each option's
   * tag is the position of its text in the data, so choosing it selects that category.
   */
  lemma TagIsPositionWhenAscending(categories: seq<string>, caption: string)
    requires forall i, j :: 0 <= i < j < |categories| ==> StrLess(categories[i], categories[j])
    ensures |CaptionOptions(categories, caption)| == |categories|
    ensures forall k :: 0 <= k < |categories| ==>
              0 <= CaptionOptions(categories, caption)[k].value < |categories| &&
              categories[CaptionOptions(categories, caption)[k].value] == CaptionOptions(categories, caption)[k].text
  {
    var r := Reverse(categories);
    assert IsDescending(r) by {
      forall i, j | 0 <= i < j < |r| ensures NotBelow(r[i], r[j]) {
        StrLessAsymmetric(categories[|r| - 1 - j], categories[|r| - 1 - i]);
      }
    }
    ReversePermutes(categories);
    SortDescendingCorrect(categories);
    DescendingPermutationUnique(SortDescending(categories), r);
    OptionsOfAt(SortDescending(categories), caption);
  }

  /** In any other order the tag need not be the position: with data ["B", "A"] option "B" is tagged 1. */
  lemma TagNotPositionOtherwise()
    ensures CaptionOptions(["B", "A"], "B")[0] == CaptionOption(1, true, "B")
    ensures ["B", "A"][CaptionOptions(["B", "A"], "B")[0].value] == "A"
  {
    assert StrLess("A", "B");
    assert SortDescending(["B", "A"]) == ["B", "A"];
  }
}
