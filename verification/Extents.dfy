/** Where the items of a file begin, and that parsing never ends exactly when one of them is an unsafe
    module (src/parser.rs:141-166, 273-372, 814-875).
 */
module Extents {
  import opened Pratt
  import opened Statements
  import opened Syntax
  import opened Wrappers

  /** A module ends where its members do; an unsafe one has itself as its first member. */
  lemma ModuleEnds(ts: seq<Token>, p: nat)
    requires Stream(ts) && p < |ts| && Head(ts, p) == Word(Mod)
    ensures p < ModuleBody(ts, p).next || ItemOf(ts, p).None?
    ensures ItemOf(ts, p).None? <==> Members(ts, ModuleBody(ts, p), true, false).None?
  {
    hide Members, MarksEnd, NewlinesEnd, BlockStart;
    MembersStep(ts, ModuleBody(ts, p), true, false);
  }

  // ------------------------------------------------------------------ where items begin

  /** The places items begin at in the item at `p`: its own, and those of a module's members. */
  function StartsInItem(ts: seq<Token>, p: nat): (r: set<nat>)
    requires Stream(ts) && p < |ts|
    ensures forall q :: q in r ==> p <= q < |ts|
    decreases |ts| - p, 0
  {
    if Head(ts, p) == Word(Mod) && !UnsafeModule(ts, p) then {p} + StartsInMembers(ts, ModuleBody(ts, p).next) else {p}
  }

  function StartsInMembers(ts: seq<Token>, p: nat): (r: set<nat>)
    requires Stream(ts) && p < |ts|
    ensures forall q :: q in r ==> p <= q < |ts|
    decreases |ts| - p, 1
  {
    if ts[p].kind == Eof || ts[p].kind == Dedent then {}
    else if ts[p].kind == Newline then StartsInMembers(ts, p + 1)
    else
      var member := MemberOf(ts, p, true);
      (if ts[p].kind == Word(Pass) then {} else StartsInItem(ts, p))
      + if member.None? then {}
        else StartsInMembers(ts, if member.value.next == p then p + 1 else member.value.next)
  }

  /** The places items begin at in a file from `p` on, up to the first that never ends. */
  function StartsInFile(ts: seq<Token>, p: nat): (r: set<nat>)
    requires Stream(ts) && p < |ts|
    ensures forall q :: q in r ==> p <= q < |ts|
    decreases |ts| - p
  {
    if ts[p].kind == Eof then {}
    else if ts[p].kind == Dedent then StartsInFile(ts, p + 1)
    else
      var item := ItemOf(ts, p);
      StartsInItem(ts, p)
      + if item.None? then {}
        else StartsInFile(ts, NewlinesEnd(ts, if item.value.next == p then p + 1 else item.value.next))
  }

  /** All places where items begin. */
  function ItemStarts(ts: seq<Token>): (r: set<nat>)
    requires Stream(ts)
    ensures forall q :: q in r ==> q < |ts|
  {
    StartsInFile(ts, NewlinesEnd(ts, 0))
  }

  ghost predicate SomeUnsafe(ts: seq<Token>, starts: set<nat>)
    requires Stream(ts) && forall q :: q in starts ==> q < |ts|
  {
    exists q :: q in starts && UnsafeModule(ts, q)
  }

  /** An item never ends exactly when an unsafe module begins at one of the items in it. */
  lemma {:induction false} ItemTrapped(ts: seq<Token>, p: nat)
    requires Stream(ts) && p < |ts|
    ensures ItemOf(ts, p).None? <==> SomeUnsafe(ts, StartsInItem(ts, p))
    decreases |ts| - p, 0
  {
    hide MarksEnd, ModuleHead, StructHead, BlockStart, TestOf, Recovered;
    if Head(ts, p) == Word(Mod) && !UnsafeModule(ts, p) {
      MembersTrapped(ts, ModuleBody(ts, p), false);
    }
  }

  lemma {:induction false} MembersTrapped(ts: seq<Token>, acc: Listed, any: bool)
    requires Stream(ts) && acc.next < |ts|
    ensures Members(ts, acc, true, any).None? <==> SomeUnsafe(ts, StartsInMembers(ts, acc.next))
    decreases |ts| - acc.next, 1
  {
    hide UnsafeModule, SimpleOf, ItemOf, StartsInItem, FieldOf;
    var p := acc.next;
    if ts[p].kind == Eof || ts[p].kind == Dedent {
    } else if ts[p].kind == Newline {
      MembersTrapped(ts, Taken(ts, acc), any);
    } else {
      var member := MemberOf(ts, p, true);
      if ts[p].kind != Word(Pass) {
        ItemTrapped(ts, p);
      }
      if member.Some? {
        var s := Nested(acc, member.value);
        MembersTrapped(ts, if s.next == p then Taken(ts, s) else s, true);
      }
    }
  }

  lemma {:induction false} NewlinesNext(ts: seq<Token>, acc: Listed)
    requires Stream(ts) && acc.next < |ts|
    ensures Newlines(ts, acc).next == NewlinesEnd(ts, acc.next)
    decreases |ts| - acc.next
  {
    if ts[acc.next].kind == Newline {
      NewlinesNext(ts, Taken(ts, acc));
    }
  }

  lemma {:induction false} FileTrapped(ts: seq<Token>, acc: Listed)
    requires Stream(ts) && acc.next < |ts|
    ensures Items(ts, acc).None? <==> SomeUnsafe(ts, StartsInFile(ts, acc.next))
    decreases |ts| - acc.next
  {
    hide UnsafeModule, ItemOf, StartsInItem, Newlines, NewlinesEnd;
    var p := acc.next;
    if ts[p].kind == Eof {
    } else if ts[p].kind == Dedent {
      FileTrapped(ts, Taken(ts, Faulted(acc)));
    } else {
      var item := ItemOf(ts, p);
      ItemTrapped(ts, p);
      if item.Some? {
        var s := Nested(acc, item.value);
        var t := if s.next == p then Taken(ts, Faulted(s)) else s;
        NewlinesNext(ts, t);
        FileTrapped(ts, Newlines(ts, t));
      }
    }
  }

  /** Parsing a file never ends exactly when an unsafe module stands where one of its items begins. */
  lemma FileUnending(ts: seq<Token>)
    requires Stream(ts)
    ensures FileOf(ts).None? <==> SomeUnsafe(ts, ItemStarts(ts))
  {
    hide Items, Newlines, SomeUnsafe, StartsInFile;
    NewlinesNext(ts, Start(0));
    FileTrapped(ts, Newlines(ts, Start(0)));
  }
}
