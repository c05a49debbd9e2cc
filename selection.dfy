/**
 * The active selection of app.js: an ordered list of at most two commodity
 * symbols, one per display slot, updated by `toggleCommodity`.
 */
module Selection {

  import opened Wrappers

  /** `maxActive` in `toggleCommodity`. */
  const MaxActive: nat := 2

  /** The selection the app starts with, before anything is restored. */
  const DefaultSelection: seq<string> := ["NATURALGAS", "CRUDEOIL"]

  predicate NoDuplicates(s: seq<string>)
  {
    forall i, j :: 0 <= i < j < |s| ==> s[i] != s[j]
  }

  /** The invariant the selection is meant to keep. */
  predicate WellFormed(s: seq<string>)
  {
    |s| <= MaxActive && NoDuplicates(s)
  }

  /** `s.filter(item => item !== x)`: every entry except the ones equal to x, in order. */
  function Without(s: seq<string>, x: string): (r: seq<string>)
    ensures |r| <= |s|
    ensures forall y :: y in r <==> y in s && y != x
  {
    if s == [] then []
    else if s[0] == x then Without(s[1..], x)
    else [s[0]] + Without(s[1..], x)
  }

  /** The selection after toggling symbol x. */
  function Toggled(s: seq<string>, x: string): (r: seq<string>)
    ensures x in r <==> x !in s
    ensures forall y :: y != x && y in r ==> y in s
  {
    if x in s then Without(s, x)
    else if |s| < MaxActive then s + [x]
    else s[1..] + [x]
  }

  /** Removing the one occurrence of x from a duplicate-free list closes the gap. */
  lemma {:induction false} WithoutSingle(s: seq<string>, x: string, i: nat)
    requires NoDuplicates(s) && i < |s| && s[i] == x
    ensures Without(s, x) == s[..i] + s[i + 1..]
  {
    if i == 0 {
      WithoutAbsent(s[1..], x);
      assert s[1..] == s[..0] + s[1..];
    } else {
      WithoutSingle(s[1..], x, i - 1);
      assert s[1..][..i - 1] == s[1..i];
      assert s[1..][i..] == s[i + 1..];
      assert [s[0]] + s[1..i] == s[..i];
    }
  }

  /** Filtering out a symbol that is not there changes nothing. */
  lemma {:induction false} WithoutAbsent(s: seq<string>, x: string)
    requires x !in s
    ensures Without(s, x) == s
  {
    if s != [] {
      WithoutAbsent(s[1..], x);
      assert [s[0]] + s[1..] == s;
    }
  }

  /** Filtering keeps a list duplicate-free. */
  lemma {:induction false} WithoutNoDuplicates(s: seq<string>, x: string)
    requires NoDuplicates(s)
    ensures NoDuplicates(Without(s, x))
  {
    if s != [] {
      WithoutNoDuplicates(s[1..], x);
      var tail := Without(s[1..], x);
      assert s[0] !in s[1..];
      assert s[0] !in tail;
    }
  }

  /** Toggling a present symbol removes it and keeps the others in their order. */
  lemma TogglePresent(s: seq<string>, x: string, i: nat)
    requires NoDuplicates(s) && i < |s| && s[i] == x
    ensures Toggled(s, x) == s[..i] + s[i + 1..]
    ensures |Toggled(s, x)| == |s| - 1
  {
    WithoutSingle(s, x, i);
  }

  /**
   * Toggling an absent symbol into a selection with room appends it at the end,
   * and toggling it again restores the selection.
   */
  lemma ToggleAbsentWithRoom(s: seq<string>, x: string)
    requires x !in s && |s| < MaxActive
    ensures Toggled(s, x) == s + [x]
    ensures Toggled(Toggled(s, x), x) == s
  {
    calc {
      Toggled(s + [x], x);
      Without(s + [x], x);
      { WithoutSingle(s + [x], x, |s|); }
      (s + [x])[..|s|];
      s;
    }
  }

  /**
   * Toggling an absent symbol into a full selection evicts the oldest entry
   * and appends the new one; the length does not change.  Toggling it again
   * does not bring the evicted entry back.
   */
  lemma ToggleAbsentWhenFull(s: seq<string>, x: string)
    requires NoDuplicates(s) && x !in s && |s| >= MaxActive
    ensures Toggled(s, x) == s[1..] + [x]
    ensures |Toggled(s, x)| == |s|
    ensures Toggled(Toggled(s, x), x) == s[1..]
    ensures s[0] !in Toggled(Toggled(s, x), x)
  {
    var t := s[1..] + [x];
    assert x !in s[1..];
    assert NoDuplicates(t);
    WithoutSingle(t, x, |s| - 1);
    assert t[..|s| - 1] == s[1..];
    assert s[0] !in s[1..];
  }

  /** The example of the default selection toggled with GOLD. */
  lemma DefaultToggledWithGold()
    ensures Toggled(DefaultSelection, "GOLD") == ["CRUDEOIL", "GOLD"]
  {
    assert "GOLD" !in DefaultSelection;
  }

  /** Every toggle keeps a well-formed selection well-formed. */
  lemma ToggleKeepsWellFormed(s: seq<string>, x: string)
    requires WellFormed(s)
    ensures WellFormed(Toggled(s, x))
  {
    if x in s {
      WithoutNoDuplicates(s, x);
    } else if |s| >= MaxActive {
      assert x !in s[1..];
    }
  }

  /** `s.indexOf(x)`: the first position of x. */
  function IndexOf(s: seq<string>, x: string): (i: nat)
    requires x in s
    ensures i < |s| && s[i] == x
    ensures forall j :: 0 <= j < i ==> s[j] != x
  {
    if s[0] == x then 0 else 1 + IndexOf(s[1..], x)
  }

  /** One `updateMarketData(symbol, expiry, container)` call, with the slot index of its container. */
  datatype Request = Request(symbol: string, expiry: string, slot: nat)

  /**
   * The requests `fetchCurrentData` makes for the first n entries of the
   * selection.  `expiries` maps a slot index to the value of that slot's
   * expiry dropdown, and has no entry where the container or dropdown is
   * missing.  A symbol's slot is the position of its first occurrence.
   */
  function RequestsUpTo(active: seq<string>, n: nat, expiries: map<nat, string>): seq<Request>
    requires n <= |active|
  {
    if n == 0 then []
    else
      var earlier := RequestsUpTo(active, n - 1, expiries);
      var symbol := active[n - 1];
      if symbol == "" then earlier
      else
        var slot := IndexOf(active, symbol);
        if slot in expiries && expiries[slot] != "" then earlier + [Request(symbol, expiries[slot], slot)]
        else earlier
  }

  /** `fetchCurrentData`: the market-data requests of one refresh tick, in selection order. */
  method FetchCurrentData(active: seq<string>, expiries: map<nat, string>) returns (requests: seq<Request>)
    ensures requests == RequestsUpTo(active, |active|, expiries)
  {
    requests := [];
    var i := 0;
    while i < |active|
      invariant 0 <= i <= |active|
      invariant requests == RequestsUpTo(active, i, expiries)
    {
      var symbol := active[i];
      if symbol != "" {
        var slot := IndexOf(active, symbol);
        if slot in expiries && expiries[slot] != "" {
          requests := requests + [Request(symbol, expiries[slot], slot)];
        }
      }
      i := i + 1;
    }
  }

  /**
   * In a duplicate-free selection every request goes to the slot of its own
   * position, with that slot's expiry, and there is at most one per entry.
   */
  lemma {:induction false} RequestsUseOwnSlot(active: seq<string>, n: nat, expiries: map<nat, string>)
    requires NoDuplicates(active) && n <= |active|
    ensures |RequestsUpTo(active, n, expiries)| <= n
    ensures forall r :: r in RequestsUpTo(active, n, expiries) ==>
      r.slot < n && active[r.slot] == r.symbol && r.slot in expiries && expiries[r.slot] == r.expiry != ""
    ensures forall i, j :: 0 <= i < j < |RequestsUpTo(active, n, expiries)| ==>
      RequestsUpTo(active, n, expiries)[i].slot != RequestsUpTo(active, n, expiries)[j].slot
  {
    if n > 0 {
      RequestsUseOwnSlot(active, n - 1, expiries);
      var symbol := active[n - 1];
      if symbol != "" {
        var slot := IndexOf(active, symbol);
        assert slot == n - 1;
      }
    }
  }

  /** A slot whose symbol is set and whose dropdown has a value is requested. */
  lemma {:induction false} FilledSlotIsRequested(active: seq<string>, n: nat, expiries: map<nat, string>, i: nat)
    requires NoDuplicates(active) && i < n <= |active|
    requires active[i] != "" && i in expiries && expiries[i] != ""
    ensures Request(active[i], expiries[i], i) in RequestsUpTo(active, n, expiries)
  {
    if i < n - 1 {
      FilledSlotIsRequested(active, n - 1, expiries, i);
    } else {
      assert IndexOf(active, active[i]) == i;
    }
  }

  /**
   * With a duplicated symbol, both entries are looked up by `indexOf`, so
   * both requests go to the first slot and the second slot gets none.
   */
  lemma DuplicateSharesFirstSlot(x: string, e0: string, e1: string)
    requires x != "" && e0 != "" && e1 != ""
    ensures RequestsUpTo([x, x], 2, map[0 := e0, 1 := e1]) == [Request(x, e0, 0), Request(x, e0, 0)]
  {
    var active, expiries := [x, x], map[0 := e0, 1 := e1];
    assert IndexOf(active, x) == 0;
    assert RequestsUpTo(active, 0, expiries) == [];
    assert RequestsUpTo(active, 1, expiries) == [Request(x, e0, 0)];
  }

  /**
   * The selection as app.js holds it: the global `activeCommodities` and the
   * copy it writes to the "activeCommodities" storage key after each toggle.
   */
  class ActiveSelection {
    var active: seq<string>
    var persisted: Option<seq<string>>

    constructor ()
      ensures active == DefaultSelection && persisted == None
      ensures WellFormed(active)
    {
      active := DefaultSelection;
      persisted := None;
    }

    /** `toggleCommodity(symbol)`, without its DOM and fetch side effects. */
    method Toggle(symbol: string)
      modifies this
      ensures active == Toggled(old(active), symbol)
      ensures persisted == Some(active)
      ensures old(WellFormed(active)) ==> WellFormed(active)
    {
      if WellFormed(active) { ToggleKeepsWellFormed(active, symbol); }
      if symbol in active {
        active := Without(active, symbol);
      } else if |active| < MaxActive {
        active := active + [symbol];
      } else {
        active := active[1..];
        active := active + [symbol];
      }
      persisted := Some(active);
    }
  }
}
