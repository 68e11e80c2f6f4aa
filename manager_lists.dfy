/** What the category and payment-method managers do alike with their lists: the name search,
    the split into items with an uploaded icon ('Importados') and without ('Sistema'), and the
    gallery of the uploaded icons already in use. Each is generic in the record, read through
    its name and its custom icon. */
module ManagerLists {
  import opened Wrappers
  import opened Seqs
  import opened Text

  /** `!!customIcon`: an icon that is there and not the empty string. */
  predicate HasIcon(icon: Option<string>)
  {
    icon.Some? && icon.value != ""
  }

  /** The search of the managers: the query lower-cased and trimmed; an empty one keeps the
      list, any other keeps the items whose lower-cased name contains it. */
  function Search<T>(items: seq<T>, name: T -> string, query: string): seq<T>
  {
    var q := Trim(Lower(query));
    if q == [] then items else Filter(items, (x: T) => Contains(Lower(name(x)), q))
  }

  /** A blank query shows everything; otherwise exactly the items whose name contains the
      query, ignoring case; either way in the list's order. */
  lemma SearchSpec<T>(items: seq<T>, name: T -> string, query: string)
    ensures Trim(Lower(query)) == [] ==> Search(items, name, query) == items
    ensures Trim(Lower(query)) != [] ==>
              forall x :: x in Search(items, name, query) <==> x in items && Contains(Lower(name(x)), Trim(Lower(query)))
    ensures Subsequence(Search(items, name, query), items)
  {
    var q := Trim(Lower(query));
    if q == [] {
      FilterAll(items, (x: T) => true);
      FilterSubsequence(items, (x: T) => true);
    } else {
      FilterMembership(items, (x: T) => Contains(Lower(name(x)), q));
      FilterSubsequence(items, (x: T) => Contains(Lower(name(x)), q));
    }
  }

  /** The items shown under 'Importados'. */
  function Imported<T>(items: seq<T>, icon: T -> Option<string>): seq<T>
  {
    Filter(items, (x: T) => HasIcon(icon(x)))
  }

  /** The items shown under 'Sistema'. */
  function System<T>(items: seq<T>, icon: T -> Option<string>): seq<T>
  {
    Filter(items, (x: T) => !HasIcon(icon(x)))
  }

  /** The two groups split the list: together they hold every item exactly as often as the
      list does, no item is in both, each keeps the list's order, and an item is imported
      exactly when it has an uploaded icon. */
  lemma PartitionSpec<T>(items: seq<T>, icon: T -> Option<string>)
    ensures multiset(Imported(items, icon)) + multiset(System(items, icon)) == multiset(items)
    ensures forall x :: !(x in Imported(items, icon) && x in System(items, icon))
    ensures Subsequence(Imported(items, icon), items) && Subsequence(System(items, icon), items)
    ensures forall x :: x in Imported(items, icon) <==> x in items && HasIcon(icon(x))
    ensures forall x :: x in System(items, icon) <==> x in items && !HasIcon(icon(x))
  {
    FilterPartition(items, (x: T) => HasIcon(icon(x)), (x: T) => !HasIcon(icon(x)));
    FilterSubsequence(items, (x: T) => HasIcon(icon(x)));
    FilterSubsequence(items, (x: T) => !HasIcon(icon(x)));
    FilterMembership(items, (x: T) => HasIcon(icon(x)));
    FilterMembership(items, (x: T) => !HasIcon(icon(x)));
  }

  /** The uploaded icons of the items, in the items' order, repeats included. */
  function PresentIcons<T>(items: seq<T>, icon: T -> Option<string>): seq<string>
  {
    if items == [] then []
    else
      var last := icon(items[|items| - 1]);
      PresentIcons(items[..|items| - 1], icon) + (if HasIcon(last) then [last.value] else [])
  }

  /** `existingCustomIcons`: each uploaded icon added to a set, the set listed in the order
      of insertion. */
  method CollectIcons<T>(items: seq<T>, icon: T -> Option<string>) returns (icons: seq<string>)
    ensures icons == Dedup(PresentIcons(items, icon))
  {
    var seen: set<string> := {};
    icons := [];
    var i := 0;
    while i < |items|
      invariant 0 <= i <= |items|
      invariant icons == Dedup(PresentIcons(items[..i], icon))
      invariant forall s :: s in seen <==> s in PresentIcons(items[..i], icon)
    {
      CollectStep(items, icon, i, icons, seen);
      var c := icon(items[i]);
      if HasIcon(c) {
        if c.value !in seen {
          icons := icons + [c.value];
        }
        seen := seen + {c.value};
      }
      i := i + 1;
    }
    assert items[..|items|] == items;
  }

  /** One turn of the loop of `CollectIcons`: the set and the list grow with the next item's
      icon as the icons of one more item require. */
  lemma CollectStep<T>(items: seq<T>, icon: T -> Option<string>, i: nat, icons: seq<string>, seen: set<string>)
    requires i < |items|
    requires icons == Dedup(PresentIcons(items[..i], icon))
    requires forall s :: s in seen <==> s in PresentIcons(items[..i], icon)
    ensures var c := icon(items[i]);
      (if HasIcon(c) && c.value !in seen then icons + [c.value] else icons) == Dedup(PresentIcons(items[..i + 1], icon))
    ensures HasIcon(icon(items[i])) ==>
      forall s :: s in seen + {icon(items[i]).value} <==> s in PresentIcons(items[..i + 1], icon)
    ensures !HasIcon(icon(items[i])) ==>
      forall s :: s in seen <==> s in PresentIcons(items[..i + 1], icon)
  {
    var c := icon(items[i]);
    var before := PresentIcons(items[..i], icon);
    PresentIconsStep(items, icon, i);
    if HasIcon(c) {
      assert PresentIcons(items[..i + 1], icon) == before + [c.value];
      DedupStep(before, c.value);
    } else {
      assert PresentIcons(items[..i + 1], icon) == before;
    }
  }

  lemma PresentIconsStep<T>(items: seq<T>, icon: T -> Option<string>, i: nat)
    requires i < |items|
    ensures PresentIcons(items[..i + 1], icon)
            == PresentIcons(items[..i], icon) + (if HasIcon(icon(items[i])) then [icon(items[i]).value] else [])
  {
    var prefix := items[..i + 1];
    assert prefix[..|prefix| - 1] == items[..i];
  }

  /** One more element adds itself at the end unless it was already there. */
  lemma DedupStep<T>(a: seq<T>, x: T)
    ensures Dedup(a + [x]) == if x in a then Dedup(a) else Dedup(a) + [x]
  {
    var s := a + [x];
    assert s[..|s| - 1] == a;
    if x in a {
      var k :| 0 <= k < |a| && a[k] == x;
    }
  }

  /** An icon is present exactly when some item carries it. */
  lemma {:induction false} PresentIconsMembership<T>(items: seq<T>, icon: T -> Option<string>, s: string)
    ensures s in PresentIcons(items, icon) <==>
              exists i :: 0 <= i < |items| && HasIcon(icon(items[i])) && icon(items[i]).value == s
  {
    if items != [] {
      var init := items[..|items| - 1];
      PresentIconsMembership(init, icon, s);
      if s in PresentIcons(items, icon) && s !in PresentIcons(init, icon) {
        assert HasIcon(icon(items[|items| - 1])) && icon(items[|items| - 1]).value == s;
      }
      if exists i :: 0 <= i < |items| && HasIcon(icon(items[i])) && icon(items[i]).value == s {
        var i :| 0 <= i < |items| && HasIcon(icon(items[i])) && icon(items[i]).value == s;
        if i < |init| {
          assert init[i] == items[i];
        }
      }
    }
  }

  /** The gallery lists each uploaded icon in use once, nothing else, in the order in which
      the items first carry them. */
  lemma IconsSpec<T>(items: seq<T>, icon: T -> Option<string>)
    ensures NoDuplicates(Dedup(PresentIcons(items, icon)))
    ensures forall s :: s in Dedup(PresentIcons(items, icon)) <==>
              exists i :: 0 <= i < |items| && HasIcon(icon(items[i])) && icon(items[i]).value == s
    ensures var p := PresentIcons(items, icon); var d := Dedup(p);
              forall i, j :: 0 <= i < j < |d| ==> IndexOf(p, d[i]) < IndexOf(p, d[j])
  {
    var p := PresentIcons(items, icon);
    forall s ensures s in Dedup(p) <==> s in p {
      if s in p {
        var k :| 0 <= k < |p| && p[k] == s;
      }
    }
    forall s ensures s in p <==> exists i :: 0 <= i < |items| && HasIcon(icon(items[i])) && icon(items[i]).value == s {
      PresentIconsMembership(items, icon, s);
    }
    DedupFirstOccurrenceOrder(p);
  }
}
