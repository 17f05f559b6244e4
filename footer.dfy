/** The footer row of the overview table in rebuildTabbedPane: for each
    column, the sum over all overview entries of that entry's cell. Its total
    lines and code lines become the values of the next time points. */
module Footers {
  import opened OverView

  /** The numeric footer cells: file count, size sum, minimum, maximum and
      average in kB, then line sum, minimum, maximum, average and code lines. */
  datatype Footer = Footer(
    count: int,
    sizeSum: int,
    sizeMin: int,
    sizeMax: int,
    sizeAvg: int,
    lines: int,
    linesMin: int,
    linesMax: int,
    linesAvg: int,
    linesCode: int)

  function ZeroFooter(): Footer
  {
    Footer(0, 0, 0, 0, 0, 0, 0, 0, 0, 0)
  }

  /** Java's integer division on int and long, which truncates toward zero:
      the remainder is smaller in magnitude than the divisor and has the sign of the
      dividend. */
  function JavaDiv(a: int, b: int): (q: int)
    requires b > 0
    ensures a >= 0 ==> 0 <= a - q * b < b
    ensures a < 0 ==> -b < a - q * b <= 0
  {
    if a >= 0 then a / b else -((-a) / b)
  }

  /** One entry's contribution to the footer, the cells of its table row. */
  function Row(e: EntryStats): Footer
    requires e.count >= 1
  {
    Footer(
      e.count,
      JavaDiv(e.sizeSum, 1000),
      JavaDiv(e.sizeMin, 1000),
      JavaDiv(e.sizeMax, 1000),
      JavaDiv(JavaDiv(e.sizeSum, e.count), 1000),
      e.lines,
      e.linesMin,
      e.linesMax,
      JavaDiv(e.lines, e.count),
      e.linesCode)
  }

  function Plus(a: Footer, b: Footer): Footer
  {
    Footer(
      a.count + b.count,
      a.sizeSum + b.sizeSum,
      a.sizeMin + b.sizeMin,
      a.sizeMax + b.sizeMax,
      a.sizeAvg + b.sizeAvg,
      a.lines + b.lines,
      a.linesMin + b.linesMin,
      a.linesMax + b.linesMax,
      a.linesAvg + b.linesAvg,
      a.linesCode + b.linesCode)
  }

  lemma PlusSwap(a: Footer, b: Footer, c: Footer)
    ensures Plus(Plus(a, b), c) == Plus(Plus(a, c), b)
  {
  }

  /** Every entry has been added to at least once, so its averages are defined. */
  predicate Counted(overview: map<string, EntryStats>)
  {
    forall k :: k in overview ==> overview[k].count >= 1
  }

  /** Every listed extension has an entry. */
  predicate Listed(overview: map<string, EntryStats>, order: seq<string>)
  {
    forall k :: k in order ==> k in overview
  }

  /** The footer accumulated over the entries in the given order. */
  function FooterOf(overview: map<string, EntryStats>, order: seq<string>): Footer
    requires Counted(overview) && Listed(overview, order)
    decreases |order|
  {
    if |order| == 0 then ZeroFooter()
    else Plus(FooterOf(overview, order[..|order| - 1]), Row(overview[order[|order| - 1]]))
  }

  /** Dropping one position from a listed order leaves it listed. */
  lemma ListedDrop(overview: map<string, EntryStats>, order: seq<string>, j: int)
    requires Listed(overview, order) && 0 <= j < |order|
    ensures Listed(overview, order[..j] + order[j + 1..])
  {
    forall k | k in order[..j] + order[j + 1..]
      ensures k in overview
    {
      assert k in order[..j] || k in order[j + 1..];
    }
  }

  /** Dropping position j before the last: the last stays last, and what
      comes before it is the prefix with position j dropped. */
  lemma DropBeforeLast(order: seq<string>, j: int)
    requires 0 <= j < |order| - 1
    ensures var init := order[..|order| - 1];
      var rest := order[..j] + order[j + 1..];
      && init[j] == order[j]
      && |rest| == |order| - 1
      && rest[..|rest| - 1] == init[..j] + init[j + 1..]
      && rest[|rest| - 1] == order[|order| - 1]
  {
    var n := |order|;
    var init := order[..n - 1];
    var rest := order[..j] + order[j + 1..];
    assert init[..j] == order[..j];
    assert init[j + 1..] + [order[n - 1]] == order[j + 1..];
    assert rest == init[..j] + init[j + 1..] + [order[n - 1]];
  }

  /** Taking one entry out of the order takes its row out of the footer. */
  lemma {:induction false} FooterRemove(overview: map<string, EntryStats>, order: seq<string>, j: int)
    requires Counted(overview) && Listed(overview, order) && 0 <= j < |order|
    ensures Listed(overview, order[..j] + order[j + 1..])
    ensures FooterOf(overview, order) == Plus(FooterOf(overview, order[..j] + order[j + 1..]), Row(overview[order[j]]))
    decreases |order|
  {
    var rest := order[..j] + order[j + 1..];
    var n := |order|;
    ListedDrop(overview, order, j);
    if j == n - 1 {
      assert rest == order[..n - 1];
    } else {
      var init := order[..n - 1];
      DropBeforeLast(order, j);
      FooterRemove(overview, init, j);
      var restInit := init[..j] + init[j + 1..];
      var a, b, c := FooterOf(overview, restInit), Row(overview[order[j]]), Row(overview[order[n - 1]]);
      assert FooterOf(overview, order) == Plus(Plus(a, b), c);
      assert FooterOf(overview, rest) == Plus(a, c);
      PlusSwap(a, b, c);
    }
  }

  /** Only the listed entries matter: changing an entry that is not listed
      leaves the footer as it is. */
  lemma {:induction false} FooterFrame(overview: map<string, EntryStats>, order: seq<string>, k: string, e: EntryStats)
    requires Counted(overview) && Listed(overview, order) && e.count >= 1
    requires k !in order
    ensures Counted(overview[k := e]) && Listed(overview[k := e], order)
    ensures FooterOf(overview[k := e], order) == FooterOf(overview, order)
    decreases |order|
  {
    if |order| > 0 {
      FooterFrame(overview, order[..|order| - 1], k, e);
    }
  }

  /** The footer does not depend on the order in which the entries are
      visited (HashMap iteration order is unspecified). */
  /** Taking the last element off one order and the same element off another
      with the same multiset leaves the same multiset. */
  lemma RemoveMatching(o1: seq<string>, o2: seq<string>, j: int)
    requires |o1| > 0 && multiset(o1) == multiset(o2)
    requires 0 <= j < |o2| && o2[j] == o1[|o1| - 1]
    ensures multiset(o1[..|o1| - 1]) == multiset(o2[..j] + o2[j + 1..])
  {
    var n := |o1|;
    var x := o1[n - 1];
    var rest2 := o2[..j] + o2[j + 1..];
    assert o1 == o1[..n - 1] + [x];
    assert o2 == o2[..j] + [x] + o2[j + 1..];
    assert multiset(o1) == multiset(o1[..n - 1]) + multiset{x};
    assert multiset(o2) == multiset(o2[..j]) + multiset{x} + multiset(o2[j + 1..]);
    assert multiset(rest2) == multiset(o2[..j]) + multiset(o2[j + 1..]);
    var m1, m2 := multiset(o1[..n - 1]), multiset(rest2);
    assert m1 + multiset{x} == m2 + multiset{x};
    forall y
      ensures m1[y] == m2[y]
    {
      assert (m1 + multiset{x})[y] == m1[y] + multiset{x}[y];
      assert (m2 + multiset{x})[y] == m2[y] + multiset{x}[y];
    }
    assert m1 == m2;
  }

  lemma {:induction false} FooterOrderIndependent(overview: map<string, EntryStats>, o1: seq<string>, o2: seq<string>)
    requires Counted(overview) && Listed(overview, o1) && Listed(overview, o2)
    requires multiset(o1) == multiset(o2)
    ensures FooterOf(overview, o1) == FooterOf(overview, o2)
    decreases |o1|
  {
    if |o1| > 0 {
      var n := |o1|;
      var x := o1[n - 1];
      assert x in multiset(o1) by {
        assert o1[n - 1] == x;
      }
      var j :| 0 <= j < |o2| && o2[j] == x;
      var rest2 := o2[..j] + o2[j + 1..];
      RemoveMatching(o1, o2, j);
      FooterRemove(overview, o2, j);
      FooterOrderIndependent(overview, o1[..n - 1], rest2);
    } else {
      assert |multiset(o2)| == 0;
    }
  }

  /** The keys of a map listed in some order; any enumeration of a HashMap's
      entries is one of these. */
  ghost function Enumeration(keys: set<string>): (r: seq<string>)
    ensures multiset(r) == multiset(keys)
    ensures forall k :: k in r <==> k in keys
  {
    if keys == {} then []
    else
      var k :| k in keys;
      var r := [k] + Enumeration(keys - {k});
      assert multiset(r) == multiset(keys) by {
        forall y
          ensures multiset(r)[y] == multiset(keys)[y]
        {
          assert multiset(r)[y] == multiset{k}[y] + multiset(Enumeration(keys - {k}))[y];
        }
      }
      r
  }

  /** Storing a changed or a new entry changes the footer by exactly that
      entry's row: a new extension adds its row, an existing one swaps its
      old row for the new. */
  lemma FooterAdd(overview: map<string, EntryStats>, order: seq<string>, extension: string, e: EntryStats, order': seq<string>)
    requires Counted(overview) && e.count >= 1
    requires multiset(order) == multiset(overview.Keys)
    requires multiset(order') == multiset(overview[extension := e].Keys)
    ensures Listed(overview, order) && Counted(overview[extension := e]) && Listed(overview[extension := e], order')
    ensures extension !in overview ==>
      FooterOf(overview[extension := e], order') == Plus(FooterOf(overview, order), Row(e))
    ensures extension in overview ==>
      Plus(FooterOf(overview[extension := e], order'), Row(overview[extension])) == Plus(FooterOf(overview, order), Row(e))
  {
    ListedOfKeys(overview, order);
    ListedOfKeys(overview[extension := e], order');
    if extension !in overview {
      FooterAddNew(overview, order, extension, e, order');
    } else {
      FooterAddExisting(overview, order, extension, e, order');
    }
  }

  /** An order holding exactly the keys lists every one of them. */
  lemma ListedOfKeys(overview: map<string, EntryStats>, order: seq<string>)
    requires multiset(order) == multiset(overview.Keys)
    ensures Listed(overview, order)
  {
    forall k | k in order
      ensures k in overview
    {
      assert k in multiset(order);
    }
  }

  lemma FooterAddNew(overview: map<string, EntryStats>, order: seq<string>, extension: string, e: EntryStats, order': seq<string>)
    requires Counted(overview) && e.count >= 1 && extension !in overview
    requires multiset(order) == multiset(overview.Keys) && Listed(overview, order)
    requires multiset(order') == multiset(overview[extension := e].Keys)
    requires Listed(overview[extension := e], order')
    ensures FooterOf(overview[extension := e], order') == Plus(FooterOf(overview, order), Row(e))
  {
    var updated := overview[extension := e];
    var grown := order + [extension];
    assert grown[..|grown| - 1] == order;
    assert extension !in order by {
      assert extension !in multiset(order);
    }
    FooterFrame(overview, order, extension, e);
    assert FooterOf(updated, grown) == Plus(FooterOf(updated, order), Row(e));
    assert multiset(grown) == multiset(order') by {
      forall y
        ensures multiset(grown)[y] == multiset(updated.Keys)[y]
      {
        assert multiset(grown)[y] == multiset(order)[y] + multiset{extension}[y];
      }
    }
    FooterOrderIndependent(updated, grown, order');
  }

  /** Dropping the one occurrence of an element removes it from the order. */
  lemma DropOnly(order: seq<string>, j: int)
    requires 0 <= j < |order| && multiset(order)[order[j]] == 1
    ensures order[j] !in order[..j] + order[j + 1..]
  {
    var x := order[j];
    var rest := order[..j] + order[j + 1..];
    assert order == order[..j] + [x] + order[j + 1..];
    assert multiset(order) == multiset(order[..j]) + multiset{x} + multiset(order[j + 1..]);
    assert multiset(rest) == multiset(order[..j]) + multiset(order[j + 1..]);
    assert x !in multiset(rest);
  }

  lemma FooterAddExisting(overview: map<string, EntryStats>, order: seq<string>, extension: string, e: EntryStats, order': seq<string>)
    requires Counted(overview) && e.count >= 1 && extension in overview
    requires multiset(order) == multiset(overview.Keys) && Listed(overview, order)
    requires multiset(order') == multiset(overview[extension := e].Keys)
    requires Listed(overview[extension := e], order')
    ensures Plus(FooterOf(overview[extension := e], order'), Row(overview[extension])) == Plus(FooterOf(overview, order), Row(e))
  {
    var updated := overview[extension := e];
    assert extension in multiset(order);
    var j :| 0 <= j < |order| && order[j] == extension;
    var rest := order[..j] + order[j + 1..];
    assert multiset(order)[extension] == 1;
    DropOnly(order, j);
    FooterRemove(overview, order, j);
    FooterFrame(overview, rest, extension, e);
    FooterRemove(updated, order, j);
    assert updated.Keys == overview.Keys;
    FooterOrderIndependent(updated, order, order');
    PlusSwap(FooterOf(overview, rest), Row(e), Row(overview[extension]));
  }

  /** The footer of the overview, in any order of its entries. */
  ghost function FooterTotal(overview: map<string, EntryStats>): Footer
    requires Counted(overview)
  {
    FooterOf(overview, Enumeration(overview.Keys))
  }
}
