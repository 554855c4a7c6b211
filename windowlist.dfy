/**
 * The window registry (`struct WindowList`): a growable array of window
 * references with a logical size and a capacity (`real_size`). Insertion
 * appends; removal scans, shifts left and may shrink; lookup is a binary
 * search, correct only while the ids are ascending, which holds because ids
 * are handed out in increasing order and only ever appended.
 */
module WindowLists {
  import opened Common
  import opened Windows

  /** Capacity grows and shrinks in blocks of this many slots. */
  const BLOCK: nat := 8

  /** Ids below this bound make the signed comparison of the binary search exact. */
  const ID_BOUND: int := 0x8000_0000

  /** A whole number of blocks, counted down one block at a time. */
  predicate BlockAligned(n: nat) {
    n == 0 || (n >= BLOCK && BlockAligned(n - BLOCK))
  }

  /** Block alignment is divisibility by the block size. */
  lemma {:induction false} BlockAlignedIsMultiple(n: nat)
    ensures BlockAligned(n) <==> n % BLOCK == 0
  {
    if n >= BLOCK {
      BlockAlignedIsMultiple(n - BLOCK);
    }
  }

  /** The ids of a sequence of windows, in order. */
  function IdsOf(ws: seq<Window>): (ids: seq<u32>)
    ensures |ids| == |ws|
    ensures forall i :: 0 <= i < |ws| ==> ids[i] == ws[i].id
  {
    seq(|ws|, i requires 0 <= i < |ws| => ws[i].id)
  }

  /** The order the binary search relies on: ascending, and below `ID_BOUND`. */
  predicate Searchable(ids: seq<u32>) {
    Ascending(ids) && forall i :: 0 <= i < |ids| ==> ids[i] < ID_BOUND
  }

  /** Index of the first occurrence of `x` in `s`, or `|s|` when there is none. */
  function IndexOf(s: seq<u32>, x: int): (k: nat)
    ensures k <= |s|
    ensures k < |s| ==> s[k] == x
    ensures forall j :: 0 <= j < k ==> s[j] != x
  {
    if s == [] then 0
    else if s[0] == x then 0
    else 1 + IndexOf(s[1..], x)
  }

  /**
   * What `windowlist_remove` leaves: the entry at `k` is cut out, and when no
   * entry matched (`k` is past the end) the last entry is dropped instead.
   */
  function RemovedAt<T>(s: seq<T>, k: nat): (r: seq<T>)
    requires |s| > 0
    ensures |r| == |s| - 1
    ensures k < |s| ==> forall i :: 0 <= i < |r| ==> r[i] == (if i < k then s[i] else s[i + 1])
    ensures k >= |s| ==> r == s[..|s| - 1]
  {
    if k < |s| then s[..k] + s[k + 1..] else s[..|s| - 1]
  }

  /** The first index holding `x` (or `|s|` when none does) is what `IndexOf` returns. */
  lemma {:induction false} IndexOfIsFirst(s: seq<u32>, x: int, k: nat)
    requires k <= |s| && (k < |s| ==> s[k] == x)
    requires forall j :: 0 <= j < k ==> s[j] != x
    ensures IndexOf(s, x) == k
  {
    if k > 0 {
      IndexOfIsFirst(s[1..], x, k - 1);
    }
  }

  /** `cmp = id - item->id` with `uint32_t` operands, stored in an `int`. */
  function Cmp32(a: u32, b: u32): (r: int)
    ensures r == 0 <==> a == b
    ensures a < ID_BOUND && b < ID_BOUND ==> (r < 0 <==> a < b) && (r > 0 <==> a > b)
  {
    var d := (a - b) % U32_LIMIT;
    if d < ID_BOUND then d else d - U32_LIMIT
  }

  /** Removing an entry keeps the remaining ids ascending. */
  lemma {:induction false} RemovedAtAscending(ws: seq<Window>, k: nat)
    requires |ws| > 0 && Ascending(IdsOf(ws))
    ensures Ascending(IdsOf(RemovedAt(ws, k)))
  {
    var r := RemovedAt(ws, k);
    forall i, j | 0 <= i < j < |r| ensures IdsOf(r)[i] < IdsOf(r)[j] {
      var i' := if k < |ws| && i >= k then i + 1 else i;
      var j' := if k < |ws| && j >= k then j + 1 else j;
      assert r[i] == ws[i'] && r[j] == ws[j'] && i' < j';
    }
  }

  /** In an ascending id list, removing the entry found for `id` leaves no entry with that id. */
  lemma {:induction false} RemovedAtIndexOfGone(ws: seq<Window>, id: u32)
    requires |ws| > 0 && Ascending(IdsOf(ws))
    ensures id !in IdsOf(RemovedAt(ws, IndexOf(IdsOf(ws), id)))
  {
    var ids := IdsOf(ws);
    var k := IndexOf(ids, id);
    var r := RemovedAt(ws, k);
    forall j | 0 <= j < |r| ensures IdsOf(r)[j] != id {
      if k < |ws| {
        var j' := if j < k then j else j + 1;
        assert r[j] == ws[j'] && j' != k;
      } else {
        assert r[j] == ws[j];
      }
    }
  }

  class WindowList {
    /** The backing store; slots at and beyond `size` are unused. */
    var windows: array<Window?>
    var size: nat
    var realSize: nat
    /** The registered windows, in list order. */
    ghost var Contents: seq<Window>

    ghost predicate Valid()
      reads this, windows
    {
      && windows.Length == realSize
      && size <= realSize
      && BlockAligned(realSize)
      && |Contents| == size
      && forall i :: 0 <= i < size ==> windows[i] == Contents[i]
    }

    ghost function Ids(): seq<u32>
      reads this
    {
      IdsOf(Contents)
    }

    /** The entry a lookup of `id` should yield: the first with that id, or null. */
    ghost function Find(id: u32): (w: Window?)
      reads this
      ensures w != null ==> w in Contents && w.id == id
      ensures w == null <==> id !in Ids()
    {
      var k := IndexOf(Ids(), id);
      if k < |Contents| then Contents[k] else null
    }

    /** `windowlist_init` */
    constructor ()
      ensures Valid() && fresh(windows)
      ensures Contents == [] && size == 0 && realSize == BLOCK
    {
      realSize := BLOCK;
      windows := new Window?[BLOCK];
      size := 0;
      Contents := [];
    }

    /** `windowlist_clear`: the storage is released and the capacity drops to zero. */
    method Clear()
      modifies this
      ensures Valid() && fresh(windows)
      ensures Contents == [] && size == 0 && realSize == 0
    {
      windows := new Window?[0];
      size := 0;
      realSize := 0;
      Contents := [];
    }

    /** `realloc`: a new store of `newSize` slots that starts with the old slots that fit. */
    method Realloc(newSize: nat)
      modifies this`windows
      ensures fresh(windows) && windows.Length == newSize
      ensures forall i :: 0 <= i < newSize && i < old(windows.Length) ==> windows[i] == old(windows[i])
    {
      var store := new Window?[newSize];
      var n := 0;
      while n < newSize && n < windows.Length
        modifies store
        invariant 0 <= n <= newSize && n <= windows.Length
        invariant forall i :: 0 <= i < n ==> store[i] == windows[i]
      {
        store[n] := windows[n];
        n := n + 1;
      }
      windows := store;
    }

    /**
     * `windowlist_add`: appends, growing the capacity by one block exactly
     * when the new size exceeds it. An id above every present id keeps the
     * list ascending.
     */
    method Add(w: Window)
      requires Valid()
      modifies this, windows
      ensures Valid()
      ensures Contents == old(Contents) + [w]
      ensures size == old(size) + 1
      ensures realSize == (if old(size) + 1 > old(realSize) then old(realSize) + BLOCK else old(realSize))
      ensures windows == old(windows) || fresh(windows)
      ensures Ascending(old(Ids())) && (forall x :: x in old(Ids()) ==> x < w.id) ==> Ascending(Ids())
    {
      size := size + 1;
      if size > realSize {
        realSize := realSize + BLOCK;
        Realloc(realSize);
      }
      windows[size - 1] := w;
      Contents := Contents + [w];
      if Ascending(old(Ids())) && (forall x :: x in old(Ids()) ==> x < w.id) {
        forall i, j | 0 <= i < j < |Ids()| ensures Ids()[i] < Ids()[j] {
          assert Ids()[i] == old(Ids())[i] && old(Ids())[i] in old(Ids());
        }
      }
    }

    /**
     * `windowlist_remove`: deletes the first entry with this id and keeps the
     * others in order. When no entry has the id, the size is still decremented,
     * which drops the last entry. One block is released when more than ten
     * slots would otherwise stand empty.
     */
    method Remove(id: u32)
      requires Valid() && size > 0
      modifies this, windows
      ensures Valid()
      ensures Contents == RemovedAt(old(Contents), IndexOf(old(Ids()), id))
      ensures size == old(size) - 1
      ensures realSize == (if old(realSize) > BLOCK && size < old(realSize) - 10
                           then old(realSize) - BLOCK else old(realSize))
      ensures old(realSize) >= BLOCK ==> realSize >= BLOCK
      ensures windows == old(windows) || fresh(windows)
      ensures Ascending(old(Ids())) ==> Ascending(Ids()) && id !in Ids()
    {
      var n := 0;
      while n < size && windows[n].id != id
        invariant 0 <= n <= size
        invariant forall j :: 0 <= j < n ==> Ids()[j] != id
      {
        n := n + 1;
      }
      ghost var k := n;
      IndexOfIsFirst(Ids(), id, k);
      ShiftLeft(n + 1);
      ghost var rest := RemovedAt(Contents, k);
      size := size - 1;
      Contents := rest;
      Shrink();
      if Ascending(old(Ids())) {
        RemovedAtAscending(old(Contents), k);
        RemovedAtIndexOfGone(old(Contents), id);
      }
    }

    /**
     * The tail of `windowlist_remove`: one block is given back when the
     * capacity exceeds one block and more than ten slots stand empty.
     */
    method Shrink()
      requires Valid()
      modifies this`realSize, this`windows
      ensures Valid()
      ensures realSize == (if old(realSize) > BLOCK && size < old(realSize) - 10
                           then old(realSize) - BLOCK else old(realSize))
      ensures windows == old(windows) || fresh(windows)
    {
      if realSize > BLOCK && size < realSize - 10 {
        realSize := realSize - BLOCK;
        Realloc(realSize);
      }
    }

    /**
     * The second loop of `windowlist_remove`: every slot from `from - 1` up
     * to the last used one takes the value of the slot after it. Afterwards
     * the first `size - 1` slots hold the entries without the one at
     * `from - 1` (or, when `from - 1` is past the end, without the last).
     */
    method ShiftLeft(from: nat)
      requires Valid() && size > 0 && 1 <= from <= size + 1
      modifies windows
      ensures forall i :: 0 <= i < size - 1 ==> windows[i] == RemovedAt(Contents, from - 1)[i]
    {
      ghost var k := from - 1;
      var n := from;
      while n < size
        invariant k + 1 <= n && (k < size ==> n <= size)
        invariant forall i :: 0 <= i < k && i < size ==> windows[i] == Contents[i]
        invariant forall i :: k <= i < n - 1 && i < size - 1 ==> windows[i] == Contents[i + 1]
        invariant forall i :: n <= i < size ==> windows[i] == Contents[i]
      {
        windows[n - 1] := windows[n];
        n := n + 1;
      }
    }

    /**
     * `windowlist_get`: binary search. A window it returns carries the id
     * asked for; on an ascending list of ids below 2^31 it returns null
     * exactly when no registered window has the id.
     */
    method Get(id: u32) returns (w: Window?)
      requires Valid()
      ensures w != null ==> w in Contents && w.id == id
      ensures Searchable(Ids()) ==> w == Find(id)
    {
      ghost var ordered := Searchable(Ids()) && id < ID_BOUND;
      var low, upper := 0, size;
      while low < upper
        invariant 0 <= low <= upper <= size
        invariant ordered ==> forall j :: 0 <= j < low ==> Ids()[j] < id
        invariant ordered ==> forall j :: upper <= j < size ==> Ids()[j] > id
      {
        var i := (low + upper) / 2;
        var item := windows[i];
        var cmp := Cmp32(id, item.id);
        if cmp < 0 {
          upper := i;
        } else if cmp > 0 {
          low := i + 1;
        } else {
          if ordered {
            IndexOfIsFirst(Ids(), id, i);
          }
          return item;
        }
      }
      if ordered {
        IndexOfIsFirst(Ids(), id, size);
      }
      return null;
    }

    /** `windowlist_get_ids`: exactly `size` ids, in list order. */
    method GetIds() returns (ids: seq<u32>)
      requires Valid()
      ensures ids == Ids()
    {
      ids := [];
      var n := 0;
      while n < size
        invariant 0 <= n <= size
        invariant ids == Ids()[..n]
      {
        ids := ids + [windows[n].id];
        n := n + 1;
      }
    }
  }
}
