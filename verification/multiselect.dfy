/**
 * The multi-select drop-down: ticking an option adds it to the selection, unticking it
 * removes it.
 */
module MultiSelect {
  import opened Seqs

  /** `s.filter(item => item !== x)`: `s` without any occurrence of `x`, order kept. */
  function Without(s: seq<string>, x: string): (r: seq<string>)
    ensures x !in r
    ensures forall y :: y in r <==> y in s && y != x
    ensures |r| <= |s|
    decreases |s|
  {
    if s == [] then []
    else Without(s[..|s| - 1], x) + (if s[|s| - 1] == x then [] else [s[|s| - 1]])
  }

  /** No element occurs twice. */
  predicate NoDuplicates(s: seq<string>) {
    forall i, j :: 0 <= i < j < |s| ==> s[i] != s[j]
  }

  /** `toggleOption(option)`: the list handed to `onChange`. */
  function ToggleOption(selected: seq<string>, option: string): (r: seq<string>)
    ensures option in r <==> option !in selected
    ensures forall y :: y != option ==> (y in r <==> y in selected)
  {
    if option in selected then Without(selected, option) else selected + [option]
  }

  /** A present option is removed, every copy of it, and nothing else is. */
  lemma TogglePresent(selected: seq<string>, option: string)
    requires option in selected
    ensures option !in ToggleOption(selected, option)
    ensures |ToggleOption(selected, option)| < |selected|
    ensures forall y :: y != option ==> (y in ToggleOption(selected, option) <==> y in selected)
  {
    WithoutShorter(selected, option);
  }

  /** An absent option goes to the end and the rest stays as it was. */
  lemma ToggleAbsent(selected: seq<string>, option: string)
    requires option !in selected
    ensures |ToggleOption(selected, option)| == |selected| + 1
    ensures ToggleOption(selected, option)[..|selected|] == selected
    ensures ToggleOption(selected, option)[|selected|] == option
  {
  }

  /** Removing an element present in the list makes it strictly shorter. */
  lemma {:induction false} WithoutShorter(s: seq<string>, x: string)
    requires x in s
    ensures |Without(s, x)| < |s|
    decreases |s|
  {
    var init, last := s[..|s| - 1], s[|s| - 1];
    assert s == init + [last];
    if last != x {
      assert x in init;
      WithoutShorter(init, x);
    }
  }

  /** Without of a list with nothing to remove is the list itself. */
  lemma {:induction false} WithoutAbsent(s: seq<string>, x: string)
    requires x !in s
    ensures Without(s, x) == s
    decreases |s|
  {
    if s != [] {
      var init := s[..|s| - 1];
      assert x !in init by {
        assert forall y :: y in init ==> y in s;
      }
      WithoutAbsent(init, x);
      assert s == init + [s[|s| - 1]];
    }
  }

  /** Filtering distributes over concatenation. */
  lemma {:induction false} WithoutAppend(a: seq<string>, b: seq<string>, x: string)
    ensures Without(a + b, x) == Without(a, x) + Without(b, x)
    decreases |b|
  {
    if b == [] {
      assert a + b == a;
    } else {
      var init, last := b[..|b| - 1], b[|b| - 1];
      DropLast(a, b);
      WithoutAppend(a, init, x);
      var p, q := Without(a, x), Without(init, x);
      var t := if last == x then [] else [last];
      assert Without(a + b, x) == (p + q) + t;
      Assoc(p, q, t);
    }
  }

  /** Every other option keeps its place relative to the rest: with `option` filtered out,
      the selection before and after the toggle is the same list. */
  lemma OthersKeepOrder(selected: seq<string>, option: string)
    ensures Without(ToggleOption(selected, option), option) == Without(selected, option)
  {
    if option in selected {
      WithoutTwice(selected, option);
    } else {
      WithoutAppend(selected, [option], option);
      assert Without([option], option) == Without([], option) + [];
    }
  }

  /** Filtering twice is filtering once. */
  lemma WithoutTwice(s: seq<string>, x: string)
    ensures Without(Without(s, x), x) == Without(s, x)
  {
    WithoutAbsent(Without(s, x), x);
  }

  /** Ticking an absent option and unticking it again gives back the original selection. */
  lemma ToggleTwiceAbsent(selected: seq<string>, option: string)
    requires option !in selected
    ensures ToggleOption(ToggleOption(selected, option), option) == selected
  {
    var added := selected + [option];
    assert option in added;
    WithoutAppend(selected, [option], option);
    assert Without([option], option) == Without([], option) + [];
    WithoutAbsent(selected, option);
  }

  /** A duplicate-free selection stays duplicate-free. */
  lemma {:induction false} WithoutNoDuplicates(s: seq<string>, x: string)
    requires NoDuplicates(s)
    ensures NoDuplicates(Without(s, x))
    decreases |s|
  {
    if s != [] {
      var init, last := s[..|s| - 1], s[|s| - 1];
      assert NoDuplicates(init) by {
        forall i, j | 0 <= i < j < |init| ensures init[i] != init[j] {
          assert init[i] == s[i] && init[j] == s[j];
        }
      }
      WithoutNoDuplicates(init, x);
      if last != x {
        assert last !in init by {
          forall i | 0 <= i < |init| ensures init[i] != last {
            assert init[i] == s[i];
          }
        }
        assert last !in Without(init, x);
      }
    }
  }

  /** Toggling keeps a duplicate-free selection duplicate-free, and the option ends up
      selected exactly when it was not selected before. */
  lemma ToggleKeepsNoDuplicates(selected: seq<string>, option: string)
    requires NoDuplicates(selected)
    ensures NoDuplicates(ToggleOption(selected, option))
    ensures option in ToggleOption(selected, option) <==> option !in selected
  {
    if option in selected {
      WithoutNoDuplicates(selected, option);
    } else {
      var r := selected + [option];
      forall i, j | 0 <= i < j < |r| ensures r[i] != r[j] {
        if j == |selected| {
          assert r[i] == selected[i];
        } else {
          assert r[i] == selected[i] && r[j] == selected[j];
        }
      }
    }
  }
}
