/** The newest change under a memory folder (infra/claude/oracle-psi-watcher.ts, maxMtimeMd). */
module Scan {

  /** What lies in a folder: a file, a folder that may not be readable, or an item that cannot be examined. */
  datatype Item = File(markdown: bool, mtime: int) | Folder(readable: bool, items: seq<Item>) | Gone

  /** A Markdown file at or below one of the items, and not behind an unreadable folder, has this time. */
  ghost predicate Reaches(items: seq<Item>, mtime: int) {
    exists item :: item in items && Holds(item, mtime)
  }

  ghost predicate Holds(item: Item, mtime: int) {
    match item
    case File(markdown, m) => markdown && m == mtime
    case Folder(readable, inner) => readable && Reaches(inner, mtime)
    case Gone => false
  }

  /** How many items there are, folders included. */
  function Size(items: seq<Item>): nat {
    if items == [] then 0
    else
      (match items[0]
       case Folder(_, inner) => 1 + Size(inner)
       case _ => 1)
      + Size(items[1..])
  }

  lemma {:induction false} SizeAppend(a: seq<Item>, x: Item)
    ensures Size(a + [x]) == Size(a) + Size([x])
  {
    if a == [] {
      assert a + [x] == [x];
    } else {
      assert (a + [x])[1..] == a[1..] + [x];
      SizeAppend(a[1..], x);
    }
  }

  lemma ReachesAppend(a: seq<Item>, x: Item, mtime: int)
    ensures Reaches(a + [x], mtime) <==> Reaches(a, mtime) || Holds(x, mtime)
  {
    assert forall item :: item in a + [x] <==> item in a || item == x;
  }

  lemma ReachesFirst(items: seq<Item>, mtime: int)
    requires items != []
    ensures Reaches(items, mtime) <==> Holds(items[0], mtime) || Reaches(items[1..], mtime)
  {
    assert items == [items[0]] + items[1..];
    assert forall item :: item in items <==> item == items[0] || item in items[1..];
  }

  /** The time is that of the newest Markdown file, or 0 if there is none. */
  ghost predicate Newest(dir: Item, newest: int) {
    (newest == 0 || Holds(dir, newest)) && forall m :: Holds(dir, m) ==> m <= newest
  }

  /** All that is still to be looked at: the folders on the stack and the rest of the folder at hand. */
  ghost predicate Left(dir: Item, stack: seq<Item>, items: seq<Item>, newest: int) {
    && 0 <= newest && (newest == 0 || Holds(dir, newest))
    && (forall m :: Reaches(stack, m) || Reaches(items, m) ==> Holds(dir, m))
    && (forall m :: Holds(dir, m) ==> m <= newest || Reaches(stack, m) || Reaches(items, m))
  }

  lemma LeftPop(dir: Item, below: seq<Item>, d: Item, newest: int)
    requires d.Folder? && Left(dir, below + [d], [], newest)
    ensures Left(dir, below, if d.readable then d.items else [], newest)
  {
    forall m ensures Reaches(below + [d], m) <==> Reaches(below, m) || Holds(d, m) {
      ReachesAppend(below, d, m);
    }
  }

  lemma LeftItem(dir: Item, stack: seq<Item>, items: seq<Item>, newest: int)
    requires items != [] && Left(dir, stack, items, newest)
    ensures
      match items[0]
      case Gone => Left(dir, stack, items[1..], newest)
      case Folder(_, _) => Left(dir, stack + [items[0]], items[1..], newest)
      case File(markdown, mtime) => Left(dir, stack, items[1..], if markdown then Max(newest, mtime) else newest)
  {
    forall m ensures Reaches(items, m) <==> Holds(items[0], m) || Reaches(items[1..], m) {
      ReachesFirst(items, m);
    }
    forall m ensures Reaches(stack + [items[0]], m) <==> Reaches(stack, m) || Holds(items[0], m) {
      ReachesAppend(stack, items[0], m);
    }
  }

  function Max(a: int, b: int): int {
    if a < b then b else a
  }

  method MaxMtimeMd(dir: Item) returns (newest: int)
    requires dir.Folder?
    ensures 0 <= newest && Newest(dir, newest)
  {
    newest := 0;
    var stack := [dir];
    while stack != []
      invariant forall item :: item in stack ==> item.Folder?
      invariant Left(dir, stack, [], newest)
      decreases Size(stack)
    {
      var d := stack[|stack| - 1];
      var below := stack[..|stack| - 1];
      assert stack == below + [d];
      SizeAppend(below, d);
      LeftPop(dir, below, d, newest);
      stack := below;
      if !d.readable {
        continue;
      }
      var i := 0;
      while i < |d.items|
        invariant 0 <= i <= |d.items|
        invariant Left(dir, stack, d.items[i..], newest)
        invariant Size(stack) + Size(d.items[i..]) <= Size(below) + Size(d.items)
        invariant forall item :: item in stack ==> item.Folder?
      {
        var item := d.items[i];
        LeftItem(dir, stack, d.items[i..], newest);
        assert d.items[i..][1..] == d.items[i + 1..];
        match item {
          case Gone =>
          case Folder(_, _) =>
            SizeAppend(stack, item);
            stack := stack + [item];
          case File(markdown, mtime) =>
            if markdown {
              newest := Max(newest, mtime);
            }
        }
        i := i + 1;
      }
    }
  }
}
