/**
 * Paged listing of an account's resources or modules: a walk over the sorted keys of the account, where
 * a resource group expands to its members and a page may end inside one.
 */
module MoveList {
  import opened Basics

  type Key = nat
  type Name = nat

  datatype Error = StateKeyDecode | MissingResourceGroupData

  /** What a key means to a query: nothing to list, one item, the members of a group, or an error. */
  datatype Entry = Nothing | One(name: Name) | Group(members: seq<Name>) | Unreadable(error: Error)

  datatype Row = Row(key: Key, entry: Entry)

  /** The rows under the account's prefix, in iteration order, as a query sees them. */
  type Rows = seq<Row>

  predicate Sorted(rows: Rows) {
    forall i, j :: 0 <= i < j < |rows| ==> rows[i].key < rows[j].key
  }

  /** The last key read; `item` is the next member to read when that key is a group. */
  datatype Cursor = Cursor(key: Key, item: Option<nat>)

  datatype Page = Page(items: seq<Name>, cursor: Option<Cursor>) | Failure(error: Error)

  // ----- the walk -----

  datatype Appended = Appended(items: seq<Name>, item: Option<nat>) | NotAppended(error: Error)

  function Min(a: nat, b: nat): nat { if a <= b then a else b }

  /** What one entry adds to a page with room for `n` items, starting at group member `item`. */
  function Append(e: Entry, item: Option<nat>, n: nat): Appended {
    match e
    case Unreadable(error) => NotAppended(error)
    case Nothing => Appended([], item)
    case One(name) => Appended([name], item)
    case Group(members) =>
      var start := if item.Some? then item.value else 0;
      if start >= |members| then Appended([], item)
      else
        var end := Min(start + n, |members|);
        Appended(members[start..end], Some(end))
  }

  function ItemAt(cursor: Option<Cursor>, key: Key): Option<nat> {
    if cursor.Some? && cursor.value.key == key then cursor.value.item else None
  }

  /** Where a walk stops: the items read, the cursor, and the index from which reading would go on. */
  datatype Walked = Walked(items: seq<Name>, cursor: Option<Cursor>, index: nat) | Broken(error: Error)

  function After(items: seq<Name>, w: Walked): Walked {
    match w
    case Broken(_) => w
    case Walked(more, cursor, index) => Walked(items + more, cursor, index)
  }

  /** Reads up to `n` items from index `i` on, when `cursor` is the current cursor. */
  function Walk(rows: Rows, i: nat, cursor: Option<Cursor>, n: nat): Walked
    requires i <= |rows|
    decreases |rows| - i
  {
    if i == |rows| || n == 0 then Walked([], cursor, i)
    else
      match Append(rows[i].entry, ItemAt(cursor, rows[i].key), n)
      case NotAppended(e) => Broken(e)
      case Appended(items, item) =>
        var next := Some(Cursor(rows[i].key, item));
        if |items| >= n then Walked(items, next, if rows[i].entry.One? then i + 1 else i)
        else After(items, Walk(rows, i + 1, next, n - |items|))
  }

  /** The first index from `i` on whose key is at least `key`. */
  function Seek(rows: Rows, key: Key, i: nat): (r: nat)
    requires i <= |rows|
    ensures i <= r <= |rows|
    decreases |rows| - i
  {
    if i == |rows| || rows[i].key >= key then i else Seek(rows, key, i + 1)
  }

  /** Where a page resumes: past the cursor's key, or at it when the cursor points into a group. */
  function Start(rows: Rows, cursor: Option<Cursor>): (r: nat)
    ensures r <= |rows|
  {
    match cursor
    case None => 0
    case Some(c) =>
      var at := Seek(rows, c.key, 0);
      if c.item.None? && at < |rows| then at + 1 else at
  }

  function PageOf(w: Walked): Page {
    match w
    case Broken(e) => Failure(e)
    case Walked(items, cursor, _) => Page(items, cursor)
  }

  /** The page of at most `n` items that follows `cursor`. */
  function PageFrom(rows: Rows, cursor: Option<Cursor>, n: nat): Page {
    if n == 0 then Page([], cursor) else PageOf(Walk(rows, Start(rows, cursor), cursor, n))
  }

  // ----- reading on -----

  lemma AppendFits(e: Entry, item: Option<nat>, n: nat)
    requires n > 0 && Append(e, item, n).Appended?
    ensures |Append(e, item, n).items| <= n
  {
  }

  /** An entry that leaves room over, or is a single item, gives the same with more room. */
  lemma SameWithMoreRoom(e: Entry, item: Option<nat>, n: nat, all: nat)
    requires 0 < n <= all && Append(e, item, n).Appended? && (|Append(e, item, n).items| < n || e.One?)
    ensures Append(e, item, all) == Append(e, item, n)
  {
  }

  /** A group that fills its room can be resumed: with more room it gives what resuming it would add. */
  lemma MoreOfGroup(e: Entry, item: Option<nat>, n: nat, m: nat)
    requires n > 0 && Append(e, item, n).Appended? && |Append(e, item, n).items| >= n && !e.One?
    ensures e.Group? && |Append(e, item, n).items| == n && Append(e, item, n).item.Some?
    ensures var a := Append(e, item, n);
      var more := Append(e, a.item, m);
      more.Appended? && |more.items| <= m && Append(e, item, n + m) == Appended(a.items + more.items, more.item)
  {
    var start := if item.Some? then item.value else 0;
    var end, last := start + n, Min(start + n + m, |e.members|);
    assert e.members[start..last] == e.members[start..end] + e.members[end..last];
  }

  lemma AfterAfter(a: seq<Name>, b: seq<Name>, w: Walked)
    ensures After(a + b, w) == After(a, After(b, w))
    ensures After([], w) == w
  {
    if w.Walked? {
      assert a + b + w.items == a + (b + w.items);
      assert [] + w.items == w.items;
    }
  }

  /** One round of a walk whose entry leaves room for `k` more. */
  lemma WalkRound(rows: Rows, i: nat, cursor: Option<Cursor>, n: nat, a: Appended, k: nat)
    requires i < |rows| && a == Append(rows[i].entry, ItemAt(cursor, rows[i].key), n)
    requires a.Appended? && 0 < k == n - |a.items|
    ensures Walk(rows, i, cursor, n) == After(a.items, Walk(rows, i + 1, Some(Cursor(rows[i].key, a.item)), k))
  {
  }

  /** The last round of a walk: its entry fills the room left. */
  lemma WalkFilled(rows: Rows, i: nat, cursor: Option<Cursor>, n: nat, a: Appended)
    requires i < |rows| && n > 0 && a == Append(rows[i].entry, ItemAt(cursor, rows[i].key), n)
    requires a.Appended? && |a.items| >= n
    ensures Walk(rows, i, cursor, n)
            == Walked(a.items, Some(Cursor(rows[i].key, a.item)), if rows[i].entry.One? then i + 1 else i)
  {
  }

  /** Where reading up to `n + m` items gets: where reading up to `n` stopped, and on from there. */
  predicate GoesOn(rows: Rows, w: Walked, whole: Walked, m: nat) {
    match w
    case Broken(_) => whole == w
    case Walked(items, cursor, index) => index <= |rows| && whole == After(items, Walk(rows, index, cursor, m))
  }

  lemma GoesOnAfter(rows: Rows, items: seq<Name>, w: Walked, whole: Walked, m: nat)
    requires GoesOn(rows, w, whole, m)
    ensures GoesOn(rows, After(items, w), After(items, whole), m)
  {
    if w.Walked? {
      AfterAfter(items, w.items, Walk(rows, w.index, w.cursor, m));
    }
  }

  lemma {:induction false} WalkOn(rows: Rows, i: nat, cursor: Option<Cursor>, n: nat, m: nat)
    requires i <= |rows|
    ensures GoesOn(rows, Walk(rows, i, cursor, n), Walk(rows, i, cursor, n + m), m)
    decreases |rows| - i
  {
    if i == |rows| || n == 0 {
      AfterAfter([], [], Walk(rows, i, cursor, m));
    } else {
      var a := Append(rows[i].entry, ItemAt(cursor, rows[i].key), n);
      if a.Appended? && |a.items| < n {
        var next, k := Some(Cursor(rows[i].key, a.item)), n - |a.items|;
        WalkOn(rows, i + 1, next, k, m);
        RoundOn(rows, i, cursor, n, n + m, m, a, Walk(rows, i + 1, next, k), Walk(rows, i + 1, next, k + m));
      } else if a.Appended? {
        FilledOn(rows, i, cursor, n, m, a);
      }
    }
  }

  /** An entry that leaves room over is read in the same way when there is more room. */
  lemma RoundWithMore(rows: Rows, i: nat, cursor: Option<Cursor>, n: nat, all: nat, a: Appended, left: nat)
    requires i < |rows| && a == Append(rows[i].entry, ItemAt(cursor, rows[i].key), n)
    requires a.Appended? && |a.items| < n <= all && left == all - |a.items|
    ensures Walk(rows, i, cursor, all) == After(a.items, Walk(rows, i + 1, Some(Cursor(rows[i].key, a.item)), left))
  {
    SameWithMoreRoom(rows[i].entry, ItemAt(cursor, rows[i].key), n, all);
    WalkRound(rows, i, cursor, all, a, left);
  }

  /** The case of an entry that leaves room over: `w` and `whole` are the walks over the other rows. */
  lemma RoundOn(rows: Rows, i: nat, cursor: Option<Cursor>, n: nat, all: nat, m: nat, a: Appended, w: Walked, whole: Walked)
    requires i < |rows| && a == Append(rows[i].entry, ItemAt(cursor, rows[i].key), n)
    requires a.Appended? && |a.items| < n <= all
    requires w == Walk(rows, i + 1, Some(Cursor(rows[i].key, a.item)), n - |a.items|)
    requires whole == Walk(rows, i + 1, Some(Cursor(rows[i].key, a.item)), all - |a.items|)
    requires GoesOn(rows, w, whole, m)
    ensures GoesOn(rows, Walk(rows, i, cursor, n), Walk(rows, i, cursor, all), m)
  {
    WalkRound(rows, i, cursor, n, a, n - |a.items|);
    RoundWithMore(rows, i, cursor, n, all, a, all - |a.items|);
    GoesOnAfter(rows, a.items, w, whole, m);
  }

  /** The case of an entry that fills the room left. */
  lemma FilledOn(rows: Rows, i: nat, cursor: Option<Cursor>, n: nat, m: nat, a: Appended)
    requires i < |rows| && n > 0
    requires a == Append(rows[i].entry, ItemAt(cursor, rows[i].key), n) && a.Appended? && |a.items| >= n
    ensures GoesOn(rows, Walk(rows, i, cursor, n), Walk(rows, i, cursor, n + m), m)
  {
    var key, e := rows[i].key, rows[i].entry;
    WalkFilled(rows, i, cursor, n, a);
    if m == 0 {
      assert a.items + [] == a.items;
    } else if e.One? {
      WalkRound(rows, i, cursor, n + m, a, m);
    } else {
      MoreOfGroup(e, ItemAt(cursor, key), n, m);
      var more := Append(e, a.item, m);
      if |more.items| < m {
        GroupEnds(rows, i, cursor, n, m, a, more, m - |more.items|);
      } else {
        GroupFills(rows, i, cursor, n, m, a, more);
      }
    }
  }

  /** The rest of the group does not fill the larger page either. */
  lemma GroupEnds(rows: Rows, i: nat, cursor: Option<Cursor>, n: nat, m: nat, a: Appended, more: Appended, k: nat)
    requires i < |rows| && n > 0 && m > 0
    requires a.Appended? && |a.items| == n && more.Appended? && |more.items| < m && rows[i].entry.Group?
    requires more == Append(rows[i].entry, a.item, m)
    requires Append(rows[i].entry, ItemAt(cursor, rows[i].key), n + m) == Appended(a.items + more.items, more.item)
    requires k == m - |more.items|
    ensures Walk(rows, i, cursor, n + m) == After(a.items, Walk(rows, i, Some(Cursor(rows[i].key, a.item)), m))
  {
    var next, last := Some(Cursor(rows[i].key, a.item)), Some(Cursor(rows[i].key, more.item));
    WalkRound(rows, i, cursor, n + m, Appended(a.items + more.items, more.item), k);
    WalkRound(rows, i, next, m, more, k);
    AfterAfter(a.items, more.items, Walk(rows, i + 1, last, k));
  }

  /** The group fills the larger page, too. */
  lemma GroupFills(rows: Rows, i: nat, cursor: Option<Cursor>, n: nat, m: nat, a: Appended, more: Appended)
    requires i < |rows| && n > 0 && m > 0
    requires a.Appended? && |a.items| == n && more.Appended? && |more.items| == m && rows[i].entry.Group?
    requires more == Append(rows[i].entry, a.item, m)
    requires Append(rows[i].entry, ItemAt(cursor, rows[i].key), n + m) == Appended(a.items + more.items, more.item)
    ensures Walk(rows, i, cursor, n + m) == After(a.items, Walk(rows, i, Some(Cursor(rows[i].key, a.item)), m))
  {
    WalkFilled(rows, i, cursor, n + m, Appended(a.items + more.items, more.item));
    WalkFilled(rows, i, Some(Cursor(rows[i].key, a.item)), m, more);
  }

  // ----- resuming from a cursor -----

  /** The cursor does not point into a key that is listed as a single item. No page ends with one that does. */
  predicate CursorOk(rows: Rows, cursor: Option<Cursor>) {
    forall i :: 0 <= i < |rows| && rows[i].entry.One? ==> ItemAt(cursor, rows[i].key) == None
  }

  /** The cursor points at the key before index `i`, which has nothing more to give. */
  predicate Exhausted(rows: Rows, i: nat, cursor: Option<Cursor>) {
    && 0 < i <= |rows|
    && cursor.Some? && cursor.value.key == rows[i - 1].key && cursor.value.item.Some?
    && Append(rows[i - 1].entry, cursor.value.item, 1) == Appended([], cursor.value.item)
  }

  /** Reading on from index `i` and resuming from `cursor` come to the same. */
  predicate Resumable(rows: Rows, i: nat, cursor: Option<Cursor>) {
    i == Start(rows, cursor) || Exhausted(rows, i, cursor)
  }

  lemma {:induction false} SeekFinds(rows: Rows, i: nat, j: nat)
    requires Sorted(rows) && j <= i < |rows|
    ensures Seek(rows, rows[i].key, j) == i
    decreases i - j
  {
    if j < i {
      SeekFinds(rows, i, j + 1);
    }
  }

  lemma ResumeHere(rows: Rows, i: nat, cursor: Option<Cursor>, m: nat)
    requires Sorted(rows) && Resumable(rows, i, cursor) && i <= |rows|
    ensures PageFrom(rows, cursor, m) == PageOf(Walk(rows, i, cursor, m))
  {
    if i != Start(rows, cursor) && m > 0 {
      SeekFinds(rows, i - 1, 0);
      var item := cursor.value.item;
      assert cursor == Some(Cursor(rows[i - 1].key, item));
      SameWithMoreRoom(rows[i - 1].entry, item, 1, m);
      WalkRound(rows, i - 1, cursor, m, Appended([], item), m);
      AfterAfter([], [], Walk(rows, i, cursor, m));
    }
  }

  /** Reading an entry leaves a cursor that resumes where reading would go on. */
  lemma EntryResumes(rows: Rows, i: nat, cursor: Option<Cursor>, n: nat, a: Appended)
    requires Sorted(rows) && CursorOk(rows, cursor) && i < |rows| && n > 0
    requires a == Append(rows[i].entry, ItemAt(cursor, rows[i].key), n) && a.Appended?
    ensures var next := Some(Cursor(rows[i].key, a.item));
      && CursorOk(rows, next)
      && (|a.items| < n || rows[i].entry.One? ==> Resumable(rows, i + 1, next))
      && (|a.items| >= n && !rows[i].entry.One? ==> Resumable(rows, i, next))
  {
    SeekFinds(rows, i, 0);
    var next := Some(Cursor(rows[i].key, a.item));
    forall j | 0 <= j < |rows| && rows[j].entry.One? ensures ItemAt(next, rows[j].key) == None {
      assert j < i || j == i || i < j;
    }
  }

  lemma {:induction false} WalkResumes(rows: Rows, i: nat, cursor: Option<Cursor>, n: nat)
    requires Sorted(rows) && CursorOk(rows, cursor) && i <= |rows| && Resumable(rows, i, cursor)
    ensures var w := Walk(rows, i, cursor, n);
      w.Walked? ==> w.index <= |rows| && Resumable(rows, w.index, w.cursor) && CursorOk(rows, w.cursor)
    decreases |rows| - i
  {
    if i < |rows| && n > 0 {
      var a := Append(rows[i].entry, ItemAt(cursor, rows[i].key), n);
      if a.Appended? {
        EntryResumes(rows, i, cursor, n, a);
        if |a.items| < n {
          WalkRound(rows, i, cursor, n, a, n - |a.items|);
          WalkResumes(rows, i + 1, Some(Cursor(rows[i].key, a.item)), n - |a.items|);
        }
      }
    }
  }

  // ----- the page-splitting law -----

  function Then(items: seq<Name>, rest: Page): Page {
    match rest
    case Failure(e) => rest
    case Page(more, cursor) => Page(items + more, cursor)
  }

  /** One page, then another from where the first ended. */
  function Continue(rows: Rows, first: Page, m: nat): Page {
    match first
    case Failure(_) => first
    case Page(items, cursor) => Then(items, PageFrom(rows, cursor, m))
  }

  /**
   * The page-splitting law: a page of `n` items followed from its cursor by a page of `m` items gives
   * the same items, final cursor and errors as one page of `n + m` items.
   */
  lemma PageSplitting(rows: Rows, cursor: Option<Cursor>, n: nat, m: nat)
    requires Sorted(rows) && CursorOk(rows, cursor)
    ensures PageFrom(rows, cursor, n + m) == Continue(rows, PageFrom(rows, cursor, n), m)
  {
    var i := Start(rows, cursor);
    var w := Walk(rows, i, cursor, n);
    WalkOn(rows, i, cursor, n, m);
    WalkResumes(rows, i, cursor, n);
    ResumeHere(rows, i, cursor, n);
    ResumeHere(rows, i, cursor, n + m);
    if w.Walked? {
      ResumeHere(rows, w.index, w.cursor, m);
    }
  }

  /** Every cursor a page ends with can be resumed. */
  lemma PageCursor(rows: Rows, cursor: Option<Cursor>, n: nat)
    requires Sorted(rows) && CursorOk(rows, cursor)
    ensures var p := PageFrom(rows, cursor, n); p.Page? ==> CursorOk(rows, p.cursor)
  {
    WalkResumes(rows, Start(rows, cursor), cursor, n);
  }

  /** A walk that reads a key ends with the cursor at that key or a later one. */
  lemma {:induction false} WalkMoves(rows: Rows, i: nat, cursor: Option<Cursor>, n: nat)
    requires Sorted(rows) && i < |rows| && n > 0
    ensures var w := Walk(rows, i, cursor, n); w.Walked? ==> w.cursor.Some? && w.cursor.value.key >= rows[i].key
    decreases |rows| - i
  {
    var a := Append(rows[i].entry, ItemAt(cursor, rows[i].key), n);
    if a.Appended? && |a.items| < n {
      WalkRound(rows, i, cursor, n, a, n - |a.items|);
      if i + 1 < |rows| {
        WalkMoves(rows, i + 1, Some(Cursor(rows[i].key, a.item)), n - |a.items|);
      }
    }
  }

  /** A made-up cursor into a single item is answered by that item and the very same cursor, for ever. */
  lemma StuckCursor(rows: Rows, cursor: Option<Cursor>)
    requires Sorted(rows) && !CursorOk(rows, cursor)
    ensures var p := PageFrom(rows, cursor, 1); p.Page? && |p.items| == 1 && p.cursor == cursor
    ensures PageFrom(rows, cursor, 2) != Continue(rows, PageFrom(rows, cursor, 1), 1)
  {
    var i :| 0 <= i < |rows| && rows[i].entry.One? && ItemAt(cursor, rows[i].key) != None;
    var item, name := cursor.value.item, rows[i].entry.name;
    SeekFinds(rows, i, 0);
    assert cursor == Some(Cursor(rows[i].key, item)) && Start(rows, cursor) == i;
    assert PageFrom(rows, cursor, 1) == Page([name], cursor);
    assert Continue(rows, PageFrom(rows, cursor, 1), 1) == Page([name] + [name], cursor);
    WalkRound(rows, i, cursor, 2, Appended([name], item), 1);
    assert PageFrom(rows, cursor, 2) == PageOf(After([name], Walk(rows, i + 1, cursor, 1)));
    if i + 1 < |rows| {
      WalkMoves(rows, i + 1, cursor, 1);
    }
  }

  /** The law holds of a cursor, for all page sizes, exactly when the cursor does not point into a single item. */
  lemma PageSplittingExactly(rows: Rows, cursor: Option<Cursor>)
    requires Sorted(rows)
    ensures CursorOk(rows, cursor) <==>
      forall n: nat, m: nat :: PageFrom(rows, cursor, n + m) == Continue(rows, PageFrom(rows, cursor, n), m)
  {
    if CursorOk(rows, cursor) {
      forall n: nat, m: nat
        ensures PageFrom(rows, cursor, n + m) == Continue(rows, PageFrom(rows, cursor, n), m)
      {
        PageSplitting(rows, cursor, n, m);
      }
    } else {
      StuckCursor(rows, cursor);
      assert PageFrom(rows, cursor, 1 + 1) != Continue(rows, PageFrom(rows, cursor, 1), 1);
    }
  }

  // ----- any sequence of pages against the whole listing -----

  function Sum(sizes: seq<nat>): nat {
    if sizes == [] then 0 else sizes[0] + Sum(sizes[1..])
  }

  /** Pages of the given sizes, one after the other. */
  function Pages(rows: Rows, cursor: Option<Cursor>, sizes: seq<nat>): Page
    decreases |sizes|
  {
    if sizes == [] then Page([], cursor)
    else
      match PageFrom(rows, cursor, sizes[0])
      case Failure(e) => Failure(e)
      case Page(items, next) => Then(items, Pages(rows, next, sizes[1..]))
  }

  /** However a listing is cut into pages, it is the one page of their total size. */
  lemma {:induction false} PagesAreOnePage(rows: Rows, cursor: Option<Cursor>, sizes: seq<nat>)
    requires Sorted(rows) && CursorOk(rows, cursor)
    ensures Pages(rows, cursor, sizes) == PageFrom(rows, cursor, Sum(sizes))
    decreases |sizes|
  {
    if sizes != [] {
      var n, rest := sizes[0], Sum(sizes[1..]);
      var first := PageFrom(rows, cursor, n);
      PageSplitting(rows, cursor, n, rest);
      PageCursor(rows, cursor, n);
      if first.Page? {
        PagesAreOnePage(rows, first.cursor, sizes[1..]);
        assert Pages(rows, cursor, sizes) == Then(first.items, PageFrom(rows, first.cursor, rest));
      }
      assert Pages(rows, cursor, sizes) == Continue(rows, first, rest);
    }
  }

  /** All that an entry lists. */
  function Listing(e: Entry): seq<Name> {
    match e
    case One(name) => [name]
    case Group(members) => members
    case _ => []
  }

  /** Everything listed from index `i` on, in order, up to the first entry that cannot be read. */
  function Readable(rows: Rows, i: nat): seq<Name>
    requires i <= |rows|
    decreases |rows| - i
  {
    if i == |rows| || rows[i].entry.Unreadable? then []
    else Listing(rows[i].entry) + Readable(rows, i + 1)
  }

  /** The error of the first entry from index `i` on that cannot be read. */
  function FirstError(rows: Rows, i: nat): Option<Error>
    requires i <= |rows|
    decreases |rows| - i
  {
    if i == |rows| then None
    else if rows[i].entry.Unreadable? then Some(rows[i].entry.error)
    else FirstError(rows, i + 1)
  }

  /** `p` is the answer to reading `n` items of a listing of which `all` can be read before `error`, if any. */
  predicate Answers(p: Page, all: seq<Name>, error: Option<Error>, n: nat) {
    if n <= |all| then p.Page? && p.items == all[..n]
    else if error.None? then p.Page? && p.items == all
    else p == Failure(error.value)
  }

  lemma AnswersThen(listing: seq<Name>, w: Walked, all: seq<Name>, error: Option<Error>, n: nat, k: nat)
    requires 0 < k == n - |listing| && Answers(PageOf(w), all, error, k)
    ensures Answers(PageOf(After(listing, w)), listing + all, error, n)
  {
    if n <= |listing + all| {
      assert listing + all[..k] == (listing + all)[..n];
    }
  }

  lemma {:induction false} WalkReads(rows: Rows, i: nat, cursor: Option<Cursor>, n: nat)
    requires Sorted(rows) && i <= |rows|
    requires cursor.Some? && i < |rows| ==> cursor.value.key < rows[i].key
    ensures Answers(PageOf(Walk(rows, i, cursor, n)), Readable(rows, i), FirstError(rows, i), n)
    decreases |rows| - i
  {
    if i < |rows| && n > 0 && !rows[i].entry.Unreadable? {
      var listing := Listing(rows[i].entry);
      var a := Append(rows[i].entry, None, n);
      assert a.items == listing[..Min(n, |listing|)];
      if |listing| < n {
        var next, k := Some(Cursor(rows[i].key, a.item)), n - |listing|;
        assert a.items == listing;
        WalkRound(rows, i, cursor, n, a, k);
        WalkReads(rows, i + 1, next, k);
        AnswersThen(listing, Walk(rows, i + 1, next, k), Readable(rows, i + 1), FirstError(rows, i + 1), n, k);
      } else {
        WalkFilled(rows, i, cursor, n, a);
        assert a.items == Readable(rows, i)[..n];
      }
    }
  }

  /**
   * Pages of any sizes, from the first key, return exactly the listing up to their total size: nothing
   * is skipped, repeated or reordered, and they fail exactly when they run into an unreadable entry.
   */
  lemma PagesListEverything(rows: Rows, sizes: seq<nat>)
    requires Sorted(rows)
    ensures Answers(Pages(rows, None, sizes), Readable(rows, 0), FirstError(rows, 0), Sum(sizes))
  {
    PagesAreOnePage(rows, None, sizes);
    WalkReads(rows, 0, None, Sum(sizes));
  }

  // ----- the builder -----

  datatype Query = Modules | Resources

  datatype Path = Code(moduleId: Name) | Resource(tag: Name) | ResourceGroup(group: Name)

  /** What a stored key decodes to: an access path, another kind of key, or nothing. */
  datatype Decoded = AccessPath(path: Path) | OtherKey | Undecodable

  /** The keys stored under the account's prefix in iteration order, and the lookups the walk makes. */
  datatype Store = Store(keys: seq<Key>, decode: Key -> Decoded, group: Name -> Option<seq<Name>>)

  function Meaning(st: Store, query: Query, key: Key): Entry {
    match (st.decode(key), query)
    case (Undecodable, _) => Unreadable(StateKeyDecode)
    case (AccessPath(Code(id)), Modules) => One(id)
    case (AccessPath(Resource(tag)), Resources) => One(tag)
    case (AccessPath(ResourceGroup(g)), Resources) =>
      (match st.group(g)
       case None => Unreadable(MissingResourceGroupData)
       case Some(members) => Group(members))
    case _ => Nothing
  }

  function RowsOf(st: Store, query: Query): (rows: Rows)
    ensures |rows| == |st.keys|
    ensures forall i :: 0 <= i < |rows| ==> rows[i] == Row(st.keys[i], Meaning(st, query, st.keys[i]))
  {
    seq(|st.keys|, i requires 0 <= i < |st.keys| => Row(st.keys[i], Meaning(st, query, st.keys[i])))
  }

  // ----- what each query lists -----

  predicate KeysSorted(st: Store) {
    forall i, j :: 0 <= i < j < |st.keys| ==> st.keys[i] < st.keys[j]
  }

  /** The ids of the account's modules in key order, up to the first key that does not decode. */
  function ModuleIds(st: Store, i: nat): seq<Name>
    requires i <= |st.keys|
    decreases |st.keys| - i
  {
    if i == |st.keys| || st.decode(st.keys[i]).Undecodable? then []
    else if st.decode(st.keys[i]).AccessPath? && st.decode(st.keys[i]).path.Code? then
      [st.decode(st.keys[i]).path.moduleId] + ModuleIds(st, i + 1)
    else ModuleIds(st, i + 1)
  }

  /** Listing modules fails only at a key that does not decode. */
  function ModuleError(st: Store, i: nat): Option<Error>
    requires i <= |st.keys|
  {
    if exists j :: i <= j < |st.keys| && st.decode(st.keys[j]).Undecodable? then Some(StateKeyDecode) else None
  }

  /** The key is that of a group whose data is missing. */
  predicate MissingGroup(st: Store, key: Key) {
    var d := st.decode(key);
    d.AccessPath? && d.path.ResourceGroup? && st.group(d.path.group).None?
  }

  predicate ResourceFails(st: Store, key: Key) { st.decode(key).Undecodable? || MissingGroup(st, key) }

  /** The resources a path stands for: a resource, or the members of a group; none for a module. */
  function ResourcesAt(st: Store, key: Key): seq<Name> {
    var d := st.decode(key);
    if !d.AccessPath? || d.path.Code? then []
    else if d.path.Resource? then [d.path.tag]
    else if st.group(d.path.group).Some? then st.group(d.path.group).value
    else []
  }

  /** The account's resources in key order, the members of a group in its place, up to the first failure. */
  function ResourceNames(st: Store, i: nat): seq<Name>
    requires i <= |st.keys|
    decreases |st.keys| - i
  {
    if i == |st.keys| || ResourceFails(st, st.keys[i]) then []
    else ResourcesAt(st, st.keys[i]) + ResourceNames(st, i + 1)
  }

  function ResourceError(st: Store, i: nat): Option<Error>
    requires i <= |st.keys|
    decreases |st.keys| - i
  {
    if i == |st.keys| then None
    else if ResourceFails(st, st.keys[i]) then
      Some(if MissingGroup(st, st.keys[i]) then MissingResourceGroupData else StateKeyDecode)
    else ResourceError(st, i + 1)
  }

  lemma {:induction false} ModulesReadable(st: Store, i: nat)
    requires i <= |st.keys|
    ensures Readable(RowsOf(st, Modules), i) == ModuleIds(st, i)
    ensures FirstError(RowsOf(st, Modules), i) == ModuleError(st, i)
    decreases |st.keys| - i
  {
    if i < |st.keys| {
      ModulesReadable(st, i + 1);
      assert RowsOf(st, Modules)[i].entry == Meaning(st, Modules, st.keys[i]);
    }
  }

  lemma {:induction false} ResourcesReadable(st: Store, i: nat)
    requires i <= |st.keys|
    ensures Readable(RowsOf(st, Resources), i) == ResourceNames(st, i)
    ensures FirstError(RowsOf(st, Resources), i) == ResourceError(st, i)
    decreases |st.keys| - i
  {
    if i < |st.keys| {
      ResourcesReadable(st, i + 1);
      assert RowsOf(st, Resources)[i].entry == Meaning(st, Resources, st.keys[i]);
    }
  }

  /** All pages of a module query together list the module ids, and fail only at a key that does not decode. */
  lemma ModuleListing(st: Store, sizes: seq<nat>)
    requires KeysSorted(st)
    ensures Answers(Pages(RowsOf(st, Modules), None, sizes), ModuleIds(st, 0), ModuleError(st, 0), Sum(sizes))
  {
    ModulesReadable(st, 0);
    PagesListEverything(RowsOf(st, Modules), sizes);
  }

  /**
   * All pages of a resource query together list the resources and group members, and fail at the first key
   * that does not decode or names a group whose data is missing.
   */
  lemma ResourceListing(st: Store, sizes: seq<nat>)
    requires KeysSorted(st)
    ensures Answers(Pages(RowsOf(st, Resources), None, sizes), ResourceNames(st, 0), ResourceError(st, 0), Sum(sizes))
  {
    ResourcesReadable(st, 0);
    PagesListEverything(RowsOf(st, Resources), sizes);
  }

  // ----- the builder's loop -----

  /** One turn of the builder's loop leads to the same page. */
  lemma RoundKeepsPage(rows: Rows, i: nat, cursor: Option<Cursor>, n: nat, list: seq<Name>, a: Appended, k: nat)
    requires i < |rows| && n > 0 && a == Append(rows[i].entry, ItemAt(cursor, rows[i].key), n) && a.Appended?
    requires k == n - |a.items|
    ensures PageOf(After(list, Walk(rows, i, cursor, n)))
            == PageOf(After(list + a.items, Walk(rows, i + 1, Some(Cursor(rows[i].key, a.item)), k)))
  {
    var next := Some(Cursor(rows[i].key, a.item));
    if k > 0 {
      WalkRound(rows, i, cursor, n, a, k);
      AfterAfter(list, a.items, Walk(rows, i + 1, next, k));
    } else {
      WalkFilled(rows, i, cursor, n, a);
      assert Walk(rows, i + 1, next, k) == Walked([], next, i + 1);
      assert list + a.items + [] == list + a.items;
    }
  }

  class MoveListBuilder {
    const st: Store
    const query: Query
    var paginationCursor: Option<Cursor>
    var maxItemsToReturn: nat
    var list: seq<Name>

    constructor (st: Store, query: Query, cursor: Option<Cursor>, maxItemsToReturn: nat)
      ensures this.st == st && this.query == query
      ensures paginationCursor == cursor && this.maxItemsToReturn == maxItemsToReturn && list == []
    {
      this.st, this.query := st, query;
      paginationCursor, this.maxItemsToReturn, list := cursor, maxItemsToReturn, [];
    }

    /** Appends what the key at the cursor lists, and moves the cursor within a group. */
    method AppendEntry(cursor: Cursor) returns (error: Option<Error>, moved: Cursor)
      requires maxItemsToReturn > 0
      modifies this`list
      ensures match Append(Meaning(st, query, cursor.key), cursor.item, maxItemsToReturn)
        case NotAppended(e) => error == Some(e) && list == old(list)
        case Appended(items, item) => error == None && list == old(list) + items && moved == Cursor(cursor.key, item)
      ensures query == Modules ==> match st.decode(cursor.key)
        case Undecodable => error == Some(StateKeyDecode)
        case AccessPath(Code(id)) => error == None && list == old(list) + [id]
        case _ => error == None && list == old(list)
      ensures query == Resources ==>
        && (error.Some? <==> ResourceFails(st, cursor.key))
        && (st.decode(cursor.key) in {OtherKey, Undecodable} || st.decode(cursor.key).path.Code? ==> list == old(list))
        && (st.decode(cursor.key).AccessPath? && st.decode(cursor.key).path.Resource? ==>
              list == old(list) + ResourcesAt(st, cursor.key))
    {
      error, moved := None, cursor;
      var decoded := st.decode(cursor.key);
      match decoded {
        case Undecodable =>
          error := Some(StateKeyDecode);
        case OtherKey =>
        case AccessPath(Code(id)) =>
          if query == Modules {
            list := list + [id];
          }
        case AccessPath(Resource(tag)) =>
          if query == Resources {
            list := list + [tag];
          }
        case AccessPath(ResourceGroup(g)) =>
          if query == Resources {
            error, moved := AppendGroup(g, cursor);
          }
      }
    }

    method AppendGroup(g: Name, cursor: Cursor) returns (error: Option<Error>, moved: Cursor)
      modifies this`list
      ensures match st.group(g)
        case None => error == Some(MissingResourceGroupData) && list == old(list)
        case Some(members) =>
          var a := Append(Group(members), cursor.item, maxItemsToReturn);
          error == None && list == old(list) + a.items && moved == Cursor(cursor.key, a.item)
    {
      error, moved := None, cursor;
      var found := st.group(g);
      if found.None? {
        return Some(MissingResourceGroupData), cursor;
      }
      var members := found.value;
      var start := if cursor.item.Some? then cursor.item.value else 0;
      if start >= |members| {
        return;
      }
      var end := Min(start + maxItemsToReturn, |members|);
      var j := start;
      while j < end
        invariant start <= j <= end
        invariant list == old(list) + members[start..j]
      {
        list := list + [members[j]];
        j := j + 1;
      }
      moved := Cursor(cursor.key, Some(end));
    }

    /** Reads the key at index `i` into the page; the page being built stays the same. */
    method ReadEntry(i: nat) returns (error: Option<Error>)
      requires i < |st.keys| && maxItemsToReturn > 0
      modifies this
      ensures error.None? ==> PageHere(i + 1) == old(PageHere(i))
      ensures error.Some? ==> old(PageHere(i)) == Failure(error.value)
    {
      ghost var rows := RowsOf(st, query);
      var key := st.keys[i];
      var cursor := Cursor(key, ItemAt(paginationCursor, key));
      ghost var a := Append(rows[i].entry, cursor.item, maxItemsToReturn);
      if a.Appended? {
        AppendFits(rows[i].entry, cursor.item, maxItemsToReturn);
        RoundKeepsPage(rows, i, paginationCursor, maxItemsToReturn, list, a, maxItemsToReturn - |a.items|);
      }
      var sizeBefore := |list|;
      var moved;
      error, moved := AppendEntry(cursor);
      if error.Some? {
        return;
      }
      assert list == old(list) + a.items && moved == Cursor(rows[i].key, a.item);
      maxItemsToReturn := SaturatingSub(maxItemsToReturn, |list| - sizeBefore);
      paginationCursor := Some(moved);
    }

    /** The page that reading on from index `i` would give. */
    ghost function PageHere(i: nat): Page
      requires i <= |st.keys|
      reads this
    {
      PageOf(After(list, Walk(RowsOf(st, query), i, paginationCursor, maxItemsToReturn)))
    }

    /** The page that follows the given cursor. */
    method BuildMoveList() returns (r: Page)
      requires list == []
      modifies this
      ensures r == PageFrom(RowsOf(st, query), old(paginationCursor), old(maxItemsToReturn))
    {
      if maxItemsToReturn == 0 {
        return Page([], paginationCursor);
      }
      var i := 0;
      if paginationCursor.Some? {
        i := SeekKey(paginationCursor.value.key);
        if paginationCursor.value.item.None? && i < |st.keys| {
          i := i + 1;
        }
      }
      AfterAfter([], [], Walk(RowsOf(st, query), i, paginationCursor, maxItemsToReturn));
      ghost var expected := PageHere(i);
      while i < |st.keys| && maxItemsToReturn > 0
        invariant 0 <= i <= |st.keys| && PageHere(i) == expected
      {
        var error := ReadEntry(i);
        if error.Some? {
          return Failure(error.value);
        }
        i := i + 1;
      }
      assert list + [] == list;
      r := Page(list, paginationCursor);
    }

    /** Positions the iterator at the first key not below `key`. */
    method SeekKey(key: Key) returns (i: nat)
      ensures i <= |st.keys| && i == Seek(RowsOf(st, query), key, 0)
    {
      ghost var rows := RowsOf(st, query);
      i := 0;
      while i < |st.keys| && st.keys[i] < key
        invariant i <= |st.keys| && Seek(rows, key, 0) == Seek(rows, key, i)
      {
        i := i + 1;
      }
    }
  }
}
