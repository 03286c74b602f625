/**
 * Breaking a sequence into consecutive lines. What counts as a line that fits is left open; all that is
 * needed is that every non-empty part of a fitting line fits.
 */
module GreedyLines {

  ghost function Flatten<T>(groups: seq<seq<T>>): seq<T> {
    if groups == [] then [] else groups[0] + Flatten(groups[1..])
  }

  lemma {:induction false} FlattenAppend<T>(groups: seq<seq<T>>, g: seq<T>)
    ensures Flatten(groups + [g]) == Flatten(groups) + g
  {
    if groups == [] {
      assert [g][1..] == [] && groups + [g] == [g];
    } else {
      FlattenAppend(groups[1..], g);
      assert (groups + [g])[1..] == groups[1..] + [g];
    }
  }

  ghost function FlatMap<S, T>(f: S -> seq<T>, items: seq<S>): seq<T> {
    if items == [] then [] else FlatMap(f, items[..|items| - 1]) + f(items[|items| - 1])
  }

  lemma {:induction false} FlatMapConcat<S, T>(f: S -> seq<T>, a: seq<S>, b: seq<S>)
    ensures FlatMap(f, a + b) == FlatMap(f, a) + FlatMap(f, b)
    decreases |b|
  {
    if b == [] {
      assert a + b == a;
    } else {
      assert (a + b)[..|a + b| - 1] == a + b[..|b| - 1];
      FlatMapConcat(f, a, b[..|b| - 1]);
    }
  }

  lemma {:induction false} FlatMapOne<S, T>(f: S -> seq<T>, x: S)
    ensures FlatMap(f, [x]) == f(x)
  {
    assert [x][..|[x]| - 1] == [];
  }

  ghost predicate Hereditary<T(!new)>(fits: seq<T> -> bool) {
    && !fits([])
    && forall a, b, c {:trigger a + b + c} :: fits(a + b + c) && b != [] ==> fits(b)
  }

  /** `groups` breaks `items` into lines that fit, in order. */
  ghost predicate Wrapping<T(!new)>(fits: seq<T> -> bool, items: seq<T>, groups: seq<seq<T>>) {
    Flatten(groups) == items && forall k :: 0 <= k < |groups| ==> fits(groups[k])
  }

  ghost predicate TooWide<T(!new)>(fits: seq<T> -> bool, line: seq<T>, next: seq<T>) {
    next != [] && !fits(line + [next[0]])
  }

  /** No line could have taken the first item of the next one. */
  ghost predicate Packed<T(!new)>(fits: seq<T> -> bool, groups: seq<seq<T>>) {
    forall j, k :: 0 <= j < k < |groups| && k == j + 1 ==> TooWide(fits, groups[j], groups[k])
  }

  ghost predicate Optimal<T(!new)>(fits: seq<T> -> bool, items: seq<T>, groups: seq<seq<T>>) {
    Wrapping(fits, items, groups) && forall other :: Wrapping(fits, items, other) ==> |groups| <= |other|
  }

  lemma {:induction false} PartFits<T(!new)>(fits: seq<T> -> bool, line: seq<T>, i: nat, j: nat)
    requires Hereditary(fits) && fits(line) && i < j <= |line|
    ensures fits(line[i..j])
  {
    assert line[..i] + line[i..j] + line[j..] == line;
  }

  lemma {:induction false} DropFirst<T(!new)>(fits: seq<T> -> bool, items: seq<T>, groups: seq<seq<T>>)
    requires !fits([]) && Wrapping(fits, items, groups) && groups != []
    ensures 0 < |groups[0]| <= |items| && items[..|groups[0]|] == groups[0] && fits(groups[0])
    ensures Wrapping(fits, items[|groups[0]|..], groups[1..])
    ensures Packed(fits, groups) ==> Packed(fits, groups[1..])
  {
  }

  lemma {:induction false} FirstTwo<T(!new)>(fits: seq<T> -> bool, items: seq<T>, groups: seq<seq<T>>)
    requires !fits([]) && Wrapping(fits, items, groups) && |groups| > 1 && Packed(fits, groups)
    ensures var b := |groups[0]|; b < |items| && !fits(items[..b + 1])
  {
    DropFirst(fits, items, groups);
    DropFirst(fits, items[|groups[0]|..], groups[1..]);
    var b := |groups[0]|;
    assert TooWide(fits, groups[0], groups[1]);
    assert items[..b + 1] == groups[0] + [groups[1][0]];
  }

  lemma {:induction false} FirstLineReaches<T(!new)>(
    fits: seq<T> -> bool, items: seq<T>, d: nat, packed: seq<seq<T>>, other: seq<seq<T>>)
    requires Hereditary(fits) && Packed(fits, packed)
    requires d < |items| && Wrapping(fits, items[d..], packed) && Wrapping(fits, items, other)
    requires |packed| > 1 && other != [] && d < |other[0]|
    ensures d + |packed[0]| >= |other[0]|
  {
    DropFirst(fits, items, other);
    FirstTwo(fits, items[d..], packed);
    var a, b := |other[0]|, |packed[0]|;
    if d + b + 1 <= a {
      assert other[0][d..d + b + 1] == items[d..][..b + 1];
      PartFits(fits, other[0], d, d + b + 1);
    }
  }

  /** A packed wrapping of a suffix never needs more lines than any wrapping of the whole. */
  lemma {:induction false} PackedIsMinimal<T(!new)>(fits: seq<T> -> bool, items: seq<T>, d: nat,
                                                    packed: seq<seq<T>>, other: seq<seq<T>>)
    requires Hereditary(fits) && Packed(fits, packed)
    requires d <= |items| && Wrapping(fits, items[d..], packed) && Wrapping(fits, items, other)
    ensures |packed| <= |other|
    decreases |other|
  {
    if packed != [] {
      DropFirst(fits, items[d..], packed);
      assert other != [];
      DropFirst(fits, items, other);
      var a, b := |other[0]|, |packed[0]|;
      if d >= a {
        assert items[a..][d - a..] == items[d..];
        PackedIsMinimal(fits, items[a..], d - a, packed, other[1..]);
      } else if |packed| > 1 {
        FirstLineReaches(fits, items, d, packed, other);
        assert items[a..][d + b - a..] == items[d..][b..];
        PackedIsMinimal(fits, items[a..], d + b - a, packed[1..], other[1..]);
      }
    }
  }

  // ----- Filling lines greedily -----

  /** Lines `groups` are closed; `line` is being filled and starts with the item that closed the last one. */
  ghost predicate Filling<T(!new)>(fits: seq<T> -> bool, items: seq<T>, groups: seq<seq<T>>, line: seq<T>) {
    && Flatten(groups) + line == items
    && (forall k :: 0 <= k < |groups| ==> fits(groups[k])) && Packed(fits, groups)
    && (line != [] ==> fits(line))
    && (groups != [] ==> TooWide(fits, groups[|groups| - 1], line))
  }

  lemma {:induction false} ExtendLine<T(!new)>(
    fits: seq<T> -> bool, items: seq<T>, groups: seq<seq<T>>, line: seq<T>, item: T)
    requires Filling(fits, items, groups, line) && line != [] && fits(line + [item])
    ensures Filling(fits, items + [item], groups, line + [item])
  {
    assert (line + [item])[0] == line[0];
    assert Flatten(groups) + (line + [item]) == items + [item];
  }

  lemma {:induction false} CloseLine<T(!new)>(
    fits: seq<T> -> bool, items: seq<T>, groups: seq<seq<T>>, line: seq<T>, item: T)
    requires Filling(fits, items, groups, line) && line != [] && !fits(line + [item]) && fits([item])
    ensures Filling(fits, items + [item], groups + [line], [item])
  {
    FlattenAppend(groups, line);
    assert TooWide(fits, line, [item]);
  }

  lemma {:induction false} PackedIsOptimal<T(!new)>(fits: seq<T> -> bool, items: seq<T>, groups: seq<seq<T>>)
    requires Hereditary(fits) && Wrapping(fits, items, groups) && Packed(fits, groups)
    ensures Optimal(fits, items, groups)
  {
    forall other | Wrapping(fits, items, other) ensures |groups| <= |other| {
      assert items[0..] == items;
      PackedIsMinimal(fits, items, 0, groups, other);
    }
  }

  /** A greedy filling, its last line closed if it has one, uses as few lines as any wrapping. */
  lemma {:induction false} FillingIsOptimal<T(!new)>(
    fits: seq<T> -> bool, items: seq<T>, groups: seq<seq<T>>, line: seq<T>)
    requires Hereditary(fits) && Filling(fits, items, groups, line)
    ensures Optimal(fits, items, if line == [] then groups else groups + [line])
  {
    if line == [] {
      PackedIsOptimal(fits, items, groups);
    } else {
      FlattenAppend(groups, line);
      PackedIsOptimal(fits, items, groups + [line]);
    }
  }
}
