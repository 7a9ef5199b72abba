/**
 * Ordering of the symbol list by address, which the loader establishes
 * before it hands a detected binary back.
 */
module BinfmtSyms {
  import opened BinfmtTypes

  predicate SortedByAddr(syms: seq<Symbol>)
  {
    forall i, j :: 0 <= i < j < |syms| ==> syms[i].addr <= syms[j].addr
  }

  /** Inserts `s` into a list before the first symbol at a higher or equal address. */
  function Insert(s: Symbol, syms: seq<Symbol>): (r: seq<Symbol>)
  {
    if syms == [] || s.addr <= syms[0].addr then [s] + syms
    else [syms[0]] + Insert(s, syms[1..])
  }

  /** Inserting adds exactly `s` to the list, and the new head is `s` or the old head. */
  lemma {:induction false} InsertAdds(s: Symbol, syms: seq<Symbol>)
    ensures multiset(Insert(s, syms)) == multiset(syms) + multiset{s}
    ensures |Insert(s, syms)| == |syms| + 1
    ensures Insert(s, syms)[0] == s || Insert(s, syms)[0] == syms[0]
  {
    if syms != [] && s.addr > syms[0].addr {
      InsertAdds(s, syms[1..]);
      assert syms == [syms[0]] + syms[1..];
    }
  }

  /** Inserting into an address-sorted list keeps it sorted. */
  lemma {:induction false} InsertSorted(s: Symbol, syms: seq<Symbol>)
    requires SortedByAddr(syms)
    ensures SortedByAddr(Insert(s, syms))
  {
    if syms != [] && s.addr > syms[0].addr {
      var tail := syms[1..];
      InsertSorted(s, tail);
      InsertAdds(s, tail);
      var rest := Insert(s, tail);
      var r := [syms[0]] + rest;
      assert syms[0].addr <= rest[0].addr;
      forall i, j | 0 <= i < j < |r| ensures r[i].addr <= r[j].addr {
        if i == 0 {
          assert r[j] == rest[j - 1];
          assert rest[0].addr <= rest[j - 1].addr || j == 1;
        } else {
          assert r[i] == rest[i - 1] && r[j] == rest[j - 1];
        }
      }
    }
  }

  /** The symbols sorted by address: an ordering of exactly the same symbols. */
  function SortSyms(syms: seq<Symbol>): (r: seq<Symbol>)
    ensures SortedByAddr(r)
    ensures multiset(r) == multiset(syms)
  {
    if syms == [] then []
    else
      assert syms == [syms[0]] + syms[1..];
      var sorted := SortSyms(syms[1..]);
      InsertSorted(syms[0], sorted);
      InsertAdds(syms[0], sorted);
      Insert(syms[0], sorted)
  }
}
