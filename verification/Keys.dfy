/** Slash-separated paths: splitting, joining, and the cleaning of rooted ones. */
module Paths {

  function Split(s: string): (cs: seq<string>)
    ensures |cs| > 0
  {
    if s == "" then [""]
    else
      var rest := Split(s[1..]);
      if s[0] == '/' then [""] + rest else [[s[0]] + rest[0]] + rest[1..]
  }

  function Join(cs: seq<string>): string {
    if cs == [] then "" else if |cs| == 1 then cs[0] else cs[0] + "/" + Join(cs[1..])
  }

  predicate NoSlash(c: string) { '/' !in c }

  ghost predicate AllNoSlash(cs: seq<string>) { forall c | c in cs :: NoSlash(c) }

  /** A component that cleaning keeps. */
  predicate Name(c: string) { c != "" && c != "." && c != ".." && NoSlash(c) }

  ghost predicate Names(cs: seq<string>) { forall c | c in cs :: Name(c) }

  /** Cleaning, component by component: empty ones and dots vanish, two dots drop the one before. */
  function Resolve(cs: seq<string>, stack: seq<string>): seq<string> {
    if cs == [] then stack else Resolve(cs[1..], Entered(stack, cs[0]))
  }

  function Entered(stack: seq<string>, c: string): seq<string> {
    if c == "" || c == "." then stack
    else if c != ".." then stack + [c]
    else if stack == [] then stack
    else stack[..|stack| - 1]
  }

  /** The path with these components. */
  function Rooted(names: seq<string>): string {
    if names == [] then "/" else "/" + Join(names)
  }

  /** path.Clean of a path that starts with a slash. */
  function Clean(s: string): string { Rooted(Resolve(Split(s), [])) }

  // ----- splitting and joining -----

  lemma {:induction false} SplitConcat(a: string, b: string)
    ensures Split(a + "/" + b) == Split(a) + Split(b)
  {
    hide Split;
    if a == "" {
      SplitFront('/', b);
      SplitNothing();
      assert a + "/" + b == ['/'] + b;
    } else {
      SplitConcat(a[1..], b);
      SplitFront(a[0], a[1..]);
      SplitFront(a[0], a[1..] + "/" + b);
      assert [a[0]] + a[1..] == a && [a[0]] + (a[1..] + "/" + b) == a + "/" + b;
      FirstChanged(a[0], Split(a[1..]), Split(b));
    }
  }

  lemma FirstChanged(c: char, rest: seq<string>, last: seq<string>)
    requires rest != []
    ensures [[c] + (rest + last)[0]] + (rest + last)[1..] == [[c] + rest[0]] + rest[1..] + last
    ensures [""] + (rest + last) == [""] + rest + last
  {
    assert (rest + last)[0] == rest[0] && (rest + last)[1..] == rest[1..] + last;
  }

  lemma SplitNothing()
    ensures Split("") == [""]
  {
  }

  lemma SplitFront(c: char, s: string)
    ensures Split([c] + s) == if c == '/' then [""] + Split(s) else [[c] + Split(s)[0]] + Split(s)[1..]
  {
    assert ([c] + s)[1..] == s;
  }

  lemma {:induction false} SplitOne(c: string)
    requires NoSlash(c)
    ensures Split(c) == [c]
  {
    if c != "" {
      assert c[0] in c;
      assert NoSlash(c[1..]);
      SplitOne(c[1..]);
      assert [c[0]] + c[1..] == c;
    }
  }

  lemma {:induction false} SplitJoin(cs: seq<string>)
    requires |cs| > 0 && AllNoSlash(cs)
    ensures Split(Join(cs)) == cs
  {
    SplitOne(cs[0]);
    if |cs| == 1 {
      assert cs == [cs[0]];
    } else {
      SplitJoin(cs[1..]);
      SplitConcat(cs[0], Join(cs[1..]));
      assert [cs[0]] + cs[1..] == cs;
    }
  }

  lemma {:induction false} JoinSplit(s: string)
    ensures Join(Split(s)) == s && AllNoSlash(Split(s))
  {
    if s != "" {
      JoinSplit(s[1..]);
      var rest := Split(s[1..]);
      assert s == [s[0]] + s[1..];
      if s[0] == '/' {
        assert ([""] + rest)[1..] == rest;
      } else {
        var cs := [[s[0]] + rest[0]] + rest[1..];
        assert cs[1..] == rest[1..];
        assert NoSlash(rest[0]) && NoSlash(cs[0]);
      }
    }
  }

  lemma {:induction false} JoinConcat(a: seq<string>, b: seq<string>)
    requires |a| > 0 && |b| > 0
    ensures Join(a + b) == Join(a) + "/" + Join(b)
  {
    if |a| == 1 {
      assert (a + b)[1..] == b;
    } else {
      JoinConcat(a[1..], b);
      assert (a + b)[1..] == a[1..] + b;
    }
  }

  // ----- cleaning -----

  lemma {:induction false} ResolveConcat(a: seq<string>, b: seq<string>, stack: seq<string>)
    ensures Resolve(a + b, stack) == Resolve(b, Resolve(a, stack))
    decreases |a|
  {
    if a == [] {
      assert a + b == b;
    } else {
      assert (a + b)[0] == a[0] && (a + b)[1..] == a[1..] + b;
      ResolveConcat(a[1..], b, Entered(stack, a[0]));
    }
  }

  lemma {:induction false} ResolveNames(names: seq<string>, stack: seq<string>)
    requires Names(names)
    ensures Resolve(names, stack) == stack + names
    decreases |names|
  {
    if names != [] {
      assert Name(names[0]);
      ResolveNames(names[1..], stack + [names[0]]);
      assert stack + [names[0]] + names[1..] == stack + names;
    }
  }

  lemma {:induction false} ResolveGivesNames(cs: seq<string>, stack: seq<string>)
    requires AllNoSlash(cs) && Names(stack)
    ensures Names(Resolve(cs, stack))
    decreases |cs|
  {
    if cs != [] {
      assert NoSlash(cs[0]);
      ResolveGivesNames(cs[1..], Entered(stack, cs[0]));
    }
  }

  /** Splitting a rooted path gives its components after an empty one. */
  lemma SplitRooted(names: seq<string>)
    requires AllNoSlash(names)
    ensures Split(Rooted(names)) == [""] + if names == [] then [""] else names
  {
    SplitOne("");
    if names == [] {
      SplitConcat("", "");
      assert "" + "/" + "" == "/";
    } else {
      SplitConcat("", Join(names));
      assert "" + "/" + Join(names) == "/" + Join(names);
      SplitJoin(names);
    }
  }

  /** Cleaning the path of some names, whatever is put after it. */
  lemma ResolveRooted(names: seq<string>)
    requires Names(names)
    ensures Resolve(Split(Rooted(names)), []) == names
  {
    SplitRooted(names);
    ResolveConcat([""], if names == [] then [""] else names, []);
    ResolveNames(names, []);
  }
}

/** Datastore keys, their order, and the two key transforms. A character stands for a byte. */
module Keys {
  import opened Paths
  import opened Numerals
  import opened Base58
  import Sequences
  import WriteCacheSpec

  datatype Key = Key(s: string)

  function NewKey(s: string): Key { Key(Clean("/" + s)) }

  /** The keys NewKey gives: a path of names. */
  ghost predicate Cleaned(k: Key) {
    exists names :: Names(names) && k == Key(Rooted(names))
  }

  /** The names of a cleaned key; none for the root. */
  function NamesOf(k: Key): seq<string> { Resolve(Split(k.s), []) }

  const ROOT := Key("/")

  function List(k: Key): seq<string> { Split(k.s)[1..] }

  function ChildString(k: Key, s: string): Key { NewKey(k.s + "/" + s) }

  function Child(k: Key, k2: Key): Key { ChildString(k, k2.s) }

  predicate IsAncestorOf(k: Key, other: Key) { other != k && k.s <= other.s }

  lemma CleanedFacts(k: Key)
    requires Cleaned(k)
    ensures Names(NamesOf(k)) && k == Key(Rooted(NamesOf(k)))
    ensures List(k) == if NamesOf(k) == [] then [""] else NamesOf(k)
  {
    var names :| Names(names) && k == Key(Rooted(names));
    ResolveRooted(names);
    SplitRooted(names);
  }

  /** NewKey cleans, and changes exactly the keys that are not clean: so it is idempotent. */
  lemma NewKeyCleans(s: string)
    ensures Cleaned(NewKey(s))
    ensures Cleaned(Key(s)) <==> NewKey(s) == Key(s)
  {
    var t := "/" + s;
    JoinSplit(t);
    ResolveGivesNames(Split(t), []);
    if Cleaned(Key(s)) {
      CleanedFacts(Key(s));
      SplitConcat("", s);
      SplitOne("");
      assert "" + "/" + s == t;
      ResolveConcat([""], Split(s), []);
    }
  }

  lemma NewKeyNames(s: string)
    ensures NewKey(s) == Key(Rooted(Resolve(Split(s), []))) && NamesOf(NewKey(s)) == Resolve(Split(s), [])
  {
    hide Rooted;
    SplitConcat("", s);
    SplitOne("");
    assert "" + "/" + s == "/" + s;
    ResolveConcat([""], Split(s), []);
    JoinSplit(s);
    ResolveGivesNames(Split(s), []);
    ResolveRooted(Resolve(Split(s), []));
  }

  lemma NewKeyLast(s: string, c: string)
    requires NoSlash(c)
    ensures NewKey(s + "/" + c) == Key(Rooted(Entered(NamesOf(NewKey(s)), c)))
    ensures NewKey(c) == Key(Rooted(Entered([], c)))
  {
    NewKeyNames(s);
    NewKeyNames(s + "/" + c);
    NewKeyNames(c);
    SplitConcat(s, c);
    SplitOne(c);
    ResolveConcat(Split(s), [c], []);
  }

  /** What NewKey does with the last component, which settles it for every string: a name is appended, nothing
      and one dot are ignored, two dots take back the name before them and stop at the root. */
  lemma NewKeyLaws(s: string, c: string)
    requires Name(c)
    ensures NewKey(s + "/" + c) == Key(Rooted(NamesOf(NewKey(s)) + [c])) && NewKey(c) == Key(Rooted([c]))
    ensures NewKey(s + "/") == NewKey(s + "/.") == NewKey(s) && NewKey("") == NewKey(".") == ROOT
    ensures NewKey(s + "/" + c + "/..") == NewKey(s) && NewKey("..") == ROOT
    ensures NewKey(s) == ROOT ==> NewKey(s + "/..") == ROOT
  {
    hide NewKey, NamesOf, Resolve, Split;
    NewKeyNames(s);
    NewKeyLast(s, c);
    NewKeyLast(s, "");
    NewKeyLast(s, ".");
    NewKeyLast(s, "..");
    NewKeyLast(s + "/" + c, "..");
    assert s + "/" + "" == s + "/" && s + "/" + "." == s + "/." && s + "/" + ".." == s + "/..";
    assert s + "/" + c + "/" + ".." == s + "/" + c + "/..";
    EnteredLast(s, c);
    RootNames();
  }

  lemma EnteredLast(s: string, c: string)
    requires Name(c)
    ensures NamesOf(NewKey(s + "/" + c)) == NamesOf(NewKey(s)) + [c]
  {
    NewKeyNames(s);
    NewKeyNames(s + "/" + c);
    SplitConcat(s, c);
    SplitOne(c);
    ResolveConcat(Split(s), [c], []);
  }

  lemma RootNames()
    ensures NamesOf(ROOT) == []
  {
    assert Names([]);
    ResolveRooted([]);
  }

  /** A child's names are its parent's and then its own, if they are names. */
  lemma ChildNames(k: Key, s: string, names: seq<string>)
    requires Cleaned(k) && Names(names) && Resolve(Split(s), NamesOf(k)) == NamesOf(k) + names
    ensures ChildString(k, s) == Key(Rooted(NamesOf(k) + names))
  {
    CleanedFacts(k);
    SplitConcat("", k.s + "/" + s);
    SplitConcat(k.s, s);
    SplitOne("");
    assert "" + "/" + (k.s + "/" + s) == "/" + (k.s + "/" + s);
    ResolveConcat([""], Split(k.s) + Split(s), []);
    ResolveConcat(Split(k.s), Split(s), []);
  }

  // ----- order -----

  /** Byte order of strings. */
  predicate StringLess(a: string, b: string) {
    b != "" && (a == "" || a[0] < b[0] || (a[0] == b[0] && StringLess(a[1..], b[1..])))
  }

  lemma {:induction false} StringOrder(a: string, b: string)
    ensures !(StringLess(a, b) && StringLess(b, a)) && !StringLess(a, a)
    ensures a == b || StringLess(a, b) || StringLess(b, a)
    decreases |a| + |b|
  {
    if a != "" && b != "" {
      StringOrder(a[1..], b[1..]);
      assert a == [a[0]] + a[1..] && b == [b[0]] + b[1..];
    }
    if a != "" {
      StringOrder(a[1..], []);
    }
  }

  lemma {:induction false} StringTransitive(a: string, b: string, c: string)
    requires StringLess(a, b) && StringLess(b, c)
    ensures StringLess(a, c)
  {
    if a != "" && a[0] == b[0] == c[0] {
      StringTransitive(a[1..], b[1..], c[1..]);
    }
  }

  /** Lexicographic order of lists. */
  predicate ListLess(a: seq<string>, b: seq<string>) {
    b != [] && (a == [] || StringLess(a[0], b[0]) || (a[0] == b[0] && ListLess(a[1..], b[1..])))
  }

  lemma {:induction false} ListOrder(a: seq<string>, b: seq<string>)
    ensures !(ListLess(a, b) && ListLess(b, a)) && !ListLess(a, a)
    ensures a == b || ListLess(a, b) || ListLess(b, a)
    decreases |a| + |b|
  {
    if a != [] && b != [] {
      ListOrder(a[1..], b[1..]);
      StringOrder(a[0], b[0]);
      assert a == [a[0]] + a[1..] && b == [b[0]] + b[1..];
    }
    if a != [] {
      ListOrder(a[1..], []);
      StringOrder(a[0], a[0]);
    }
  }

  lemma {:induction false} ListTransitive(a: seq<string>, b: seq<string>, c: seq<string>)
    requires ListLess(a, b) && ListLess(b, c)
    ensures ListLess(a, c)
  {
    if a != [] {
      if a[0] == b[0] && b[0] == c[0] {
        StringOrder(a[0], a[0]);
        ListTransitive(a[1..], b[1..], c[1..]);
      } else if StringLess(a[0], b[0]) && StringLess(b[0], c[0]) {
        StringTransitive(a[0], b[0], c[0]);
      }
    }
  }

  /** The two have place `i`, and are alike before it. */
  predicate AgreeTo<T(==)>(a: seq<T>, b: seq<T>, i: nat) { i < |a| && i < |b| && a[..i] == b[..i] }

  lemma AgreeBehind<T>(a: seq<T>, b: seq<T>, i: nat)
    requires a != [] && b != [] && i > 0
    ensures AgreeTo(a, b, i) <==> a[0] == b[0] && AgreeTo(a[1..], b[1..], i - 1)
  {
    if i < |a| && i < |b| {
      assert a[..i] == [a[0]] + a[1..][..i - 1] && b[..i] == [b[0]] + b[1..][..i - 1];
    }
  }

  lemma PrefixFront<T>(a: seq<T>, b: seq<T>)
    requires a != [] && b != []
    ensures a < b <==> a[0] == b[0] && a[1..] < b[1..]
  {
    assert a == [a[0]] + a[1..] && b == [b[0]] + b[1..];
  }

  /** A proper prefix is less; otherwise the first place where the two differ decides. */
  lemma {:induction false} ListLessMeans(a: seq<string>, b: seq<string>)
    ensures ListLess(a, b) <==> a < b || exists i: nat :: AgreeTo(a, b, i) && StringLess(a[i], b[i])
    decreases |a|
  {
    if a != [] && b != [] {
      ListLessMeans(a[1..], b[1..]);
      StringOrder(a[0], a[0]);
      PrefixFront(a, b);
      assert AgreeTo(a, b, 0);
      if i: nat :| AgreeTo(a, b, i) && StringLess(a[i], b[i]) {
        if i > 0 {
          AgreeBehind(a, b, i);
        }
      }
      if i: nat :| AgreeTo(a[1..], b[1..], i) && StringLess(a[1..][i], b[1..][i]) {
        AgreeBehind(a, b, i + 1);
      }
      hide AgreeTo;
    }
  }

  lemma {:induction false} StringLessMeans(a: string, b: string)
    ensures StringLess(a, b) <==> a < b || exists i: nat :: AgreeTo(a, b, i) && a[i] < b[i]
    decreases |a|
  {
    if a != "" && b != "" {
      StringLessMeans(a[1..], b[1..]);
      PrefixFront(a, b);
      assert AgreeTo(a, b, 0);
      if i: nat :| AgreeTo(a, b, i) && a[i] < b[i] {
        if i > 0 {
          AgreeBehind(a, b, i);
        }
      }
      if i: nat :| AgreeTo(a[1..], b[1..], i) && a[1..][i] < b[1..][i] {
        AgreeBehind(a, b, i + 1);
      }
      hide AgreeTo;
    }
  }

  predicate KeyLess(k: Key, k2: Key) { ListLess(List(k), List(k2)) }

  method Less(k: Key, k2: Key) returns (r: bool)
    ensures r == KeyLess(k, k2)
  {
    var list1, list2 := List(k), List(k2);
    for i := 0 to |list1|
      invariant i <= |list2|
      invariant KeyLess(k, k2) == ListLess(list1[i..], list2[i..])
    {
      if |list2| < i + 1 {
        return false;
      }
      StringOrder(list1[i], list2[i]);
      if StringLess(list1[i], list2[i]) {
        return true;
      } else if StringLess(list2[i], list1[i]) {
        return false;
      }
      assert list1[i..][1..] == list1[i + 1..] && list2[i..][1..] == list2[i + 1..];
    }
    return |list1| < |list2|;
  }

  /** Less is a strict total order on cleaned keys. */
  lemma LessIsTotalOrder(a: Key, b: Key, c: Key)
    requires Cleaned(a) && Cleaned(b) && Cleaned(c)
    ensures !KeyLess(a, a)
    ensures KeyLess(a, b) && KeyLess(b, c) ==> KeyLess(a, c)
    ensures a == b || (KeyLess(a, b) != KeyLess(b, a))
  {
    hide ListLess, List;
    ListOrder(List(a), List(b));
    if KeyLess(a, b) && KeyLess(b, c) {
      ListTransitive(List(a), List(b), List(c));
    }
    if List(a) == List(b) {
      ListDetermines(a, b);
    }
  }

  lemma ListDetermines(a: Key, b: Key)
    requires Cleaned(a) && Cleaned(b) && List(a) == List(b)
    ensures a == b
  {
    CleanedFacts(a);
    CleanedFacts(b);
    assert Names(NamesOf(a)) && Names(NamesOf(b));
    assert NamesOf(a) != [] ==> Name(NamesOf(a)[0]);
    assert NamesOf(b) != [] ==> Name(NamesOf(b)[0]);
  }

  // ----- reverse -----

  function Reversed(k: Key): Key { NewKey(Join(Sequences.Reverse(List(k)))) }

  method Reverse(k: Key) returns (r: Key)
    ensures r == Reversed(k)
  {
    var l := List(k);
    var a := new string[|l|](_ => "");
    for i := 0 to |l|
      invariant forall j: nat | j < i :: a[|l| - 1 - j] == l[j]
    {
      a[|l| - i - 1] := l[i];
    }
    forall j: nat | j < |l|
      ensures a[j] == Sequences.Reverse(l)[j]
    {
      assert a[|l| - 1 - (|l| - 1 - j)] == l[|l| - 1 - j];
    }
    assert a[..] == Sequences.Reverse(l);
    r := NewKey(Join(a[..]));
  }

  /** Reversing turns the names around; twice, it gives the key back. */
  lemma ReverseInvolution(k: Key)
    requires Cleaned(k)
    ensures Cleaned(Reversed(k)) && NamesOf(Reversed(k)) == Sequences.Reverse(NamesOf(k))
    ensures Reversed(Reversed(k)) == k
  {
    hide Reversed, NamesOf, Rooted, Sequences.Reverse;
    ReverseNames(k);
    ReverseNames(Reversed(k));
    CleanedFacts(k);
    ReverseTwice(NamesOf(k));
  }

  lemma ReverseTwice(cs: seq<string>)
    ensures Sequences.Reverse(Sequences.Reverse(cs)) == cs
  {
  }

  lemma ReverseNames(k: Key)
    requires Cleaned(k)
    ensures Reversed(k) == Key(Rooted(Sequences.Reverse(NamesOf(k))))
    ensures Cleaned(Reversed(k)) && NamesOf(Reversed(k)) == Sequences.Reverse(NamesOf(k))
  {
    CleanedFacts(k);
    var names := NamesOf(k);
    var back := Sequences.Reverse(names);
    assert Names(back) by {
      forall c | c in back
        ensures Name(c)
      {
        var i :| 0 <= i < |back| && back[i] == c;
        assert names[|names| - 1 - i] in names;
      }
    }
    if names == [] {
      assert Sequences.Reverse([""]) == [""];
      assert "/" + Join([""]) == "/";
      SplitRooted([]);
      assert Resolve(["", ""], []) == [];
    } else {
      assert "/" + Join(back) == Rooted(back);
    }
    ResolveRooted(back);
  }

  // ----- block keys -----

  /** Key.DsKey and KeyFromDsKey of the block keys. */
  function DsKey(k: string): Key { NewKey(k) }

  function KeyFromDsKey(k: Key): string
    requires k.s != ""
  {
    k.s[1..]
  }

  /** A block key comes back from the datastore exactly when a slash before it makes a clean path. */
  lemma DsKeyRoundTrip(k: string)
    ensures KeyFromDsKey(DsKey(k)) == k <==> Cleaned(Key("/" + k))
  {
    NewKeyCleans(k);
    if Cleaned(Key("/" + k)) {
      CleanedFacts(Key("/" + k));
    }
    assert KeyFromDsKey(DsKey(k)) == k ==> DsKey(k).s == [DsKey(k).s[0]] + k;
  }

  /** The block keys that come back from the datastore do not share datastore keys, so the write cache cannot
      be noticed by runs over them. */
  lemma DsKeySafe<B(!new)>(size: nat, data: B)
    requires size > 0
    ensures WriteCacheSpec.Transparent<string, Key, B>(size, DsKey, iset k: string | Cleaned(Key("/" + k)))
  {
    var ks := iset k: string | Cleaned(Key("/" + k));
    forall k, k' | k in ks && k' in ks && DsKey(k) == DsKey(k')
      ensures k == k'
    {
      DsKeyRoundTrip(k);
      DsKeyRoundTrip(k');
    }
    hide DsKey, Cleaned, WriteCacheSpec.Transparent;
    WriteCacheSpec.TransparentIffApart<string, Key, B>(size, DsKey, ks, data);
  }

  /** Other block keys can share one, so over all keys the write cache can be noticed. */
  lemma DsKeyShared<B(!new)>(size: nat, data: B)
    requires size > 0
    ensures "a" != "a/" && DsKey("a") == DsKey("a/")
    ensures !WriteCacheSpec.Transparent<string, Key, B>(size, DsKey, iset{"a", "a/"})
  {
    assert Name("a") && Names(["a"]);
    ResolveRooted(["a"]);
    assert Rooted(["a"]) == "/" + "a" == "/a";
    SplitConcat("/a", "");
    assert "/a" + "/" + "" == "/" + "a/";
    ResolveConcat(Split("/a"), [""], []);
    assert Resolve([""], ["a"]) == ["a"];
    assert DsKey("a") == DsKey("a/") && "a" != "a/";
    hide DsKey, WriteCacheSpec.Transparent;
    WriteCacheSpec.TransparentIffApart<string, Key, B>(size, DsKey, iset{"a", "a/"}, data);
  }

  // ----- the base58 converter -----

  /** A string as the bytes it stands for, and back. */
  ghost predicate IsText(s: string) { forall c | c in s :: c < 256 as char }

  function BytesOf(s: string): (b: seq<nat>)
    ensures |b| == |s|
  {
    seq(|s|, i requires 0 <= i < |s| => s[i] as nat)
  }

  function TextOf(b: seq<nat>): (s: string)
    requires forall x | x in b :: x < 256
    ensures |s| == |b|
  {
    seq(|b|, i requires 0 <= i < |b| => assert b[i] in b; b[i] as char)
  }

  lemma TextBytes(s: string)
    requires IsText(s)
    ensures IsBytes(BytesOf(s)) && (forall x | x in BytesOf(s) :: x < 256) && TextOf(BytesOf(s)) == s
  {
    forall i: nat | i < |s|
      ensures BytesOf(s)[i] < 256
    {
      assert s[i] in s;
    }
  }

  ghost predicate AllText(names: seq<string>) { forall c | c in names :: IsText(c) }

  /** ConvertKey and InvertKey on a list of components. */
  ghost function Converted(parts: seq<string>): Key
    requires AllText(parts)
  {
    if parts == [] then ROOT
    else
      var c := parts[|parts| - 1];
      assert c in parts;
      ChildString(Converted(parts[..|parts| - 1]), EncodedName(c))
  }

  ghost function DecodedText(s: string): string {
    BtcAlphabet();
    EncodeDecode(s, BTC_ALPHABET);
    TextOf(Decode(s, BTC_ALPHABET))
  }

  ghost function Inverted(parts: seq<string>): Key {
    if parts == [] then ROOT
    else ChildString(Inverted(parts[..|parts| - 1]), DecodedText(parts[|parts| - 1]))
  }

  method ConvertKey(dsk: Key) returns (k: Key)
    requires AllText(List(dsk))
    ensures k == Converted(List(dsk))
  {
    hide ChildString, Encode;
    var ns := List(dsk);
    k := ROOT;
    for i := 0 to |ns|
      invariant k == Converted(ns[..i])
    {
      assert ns[..i + 1][..i] == ns[..i];
      assert ns[i] in ns;
      TextBytes(ns[i]);
      BtcAlphabet();
      var e := EncodeAlphabet(BytesOf(ns[i]), BTC_ALPHABET);
      k := ChildString(k, e);
    }
    assert ns[..|ns|] == ns;
  }

  method InvertKey(dsk: Key) returns (k: Key)
    ensures k == Inverted(List(dsk))
  {
    hide ChildString, Decode;
    var ns := List(dsk);
    k := ROOT;
    for i := 0 to |ns|
      invariant k == Inverted(ns[..i])
    {
      assert ns[..i + 1][..i] == ns[..i];
      BtcAlphabet();
      var d := DecodeAlphabet(ns[i], BTC_ALPHABET);
      EncodeDecode(ns[i], BTC_ALPHABET);
      k := ChildString(k, TextOf(d));
    }
    assert ns[..|ns|] == ns;
  }

  /** The base58 spelling of a name, and what it decodes to. */
  ghost function EncodedName(c: string): string
    requires IsText(c)
  {
    TextBytes(c);
    BtcAlphabet();
    Encode(BytesOf(c), BTC_ALPHABET)
  }

  lemma EncodedNameFacts(c: string)
    requires IsText(c)
    ensures DecodedText(EncodedName(c)) == c
    ensures c != "" ==> Name(EncodedName(c))
    ensures c == "" ==> EncodedName(c) == ""
  {
    hide Encode, Decode;
    TextBytes(c);
    BtcAlphabet();
    DecodeEncode(BytesOf(c), BTC_ALPHABET);
    Spelt(EncodedName(c));
    EncodeNothing();
    assert c == "" ==> BytesOf(c) == [];
  }

  lemma EncodeNothing()
    ensures IsAlphabet(BTC_ALPHABET) && Encode([], BTC_ALPHABET) == "" && Decode("", BTC_ALPHABET) == []
  {
    BtcAlphabet();
    DecodeEncode([], BTC_ALPHABET);
    assert Transcode([], 256, 58) == [];
  }

  /** No character of the alphabet is a slash or a dot. */
  lemma Spelt(s: string)
    requires Over(s, BTC_ALPHABET)
    ensures '/' !in s && '.' !in s
  {
    BtcAlphabet();
    forall i: nat | i < |s|
      ensures s[i] != '/' && s[i] != '.'
    {
      var k :| 0 <= k < |BTC_ALPHABET| && BTC_ALPHABET[k] == s[i];
      assert BtcCode(k) >= 49;
    }
  }

  ghost function EncodedNames(names: seq<string>): (es: seq<string>)
    requires AllText(names)
    ensures |es| == |names|
  {
    seq(|names|, i requires 0 <= i < |names| => assert names[i] in names; EncodedName(names[i]))
  }

  lemma EncodedNamesAreNames(names: seq<string>)
    requires AllText(names) && Names(names)
    ensures Names(EncodedNames(names))
  {
    hide EncodedName;
    forall i: nat | i < |names|
      ensures Name(EncodedNames(names)[i])
    {
      assert names[i] in names;
      EncodedNameFacts(names[i]);
    }
  }

  lemma {:induction false} ConvertedIs(names: seq<string>)
    requires AllText(names) && Names(names)
    ensures Converted(names) == Key(Rooted(EncodedNames(names)))
  {
    hide EncodedName, EncodedNames, ChildString, NamesOf, Name;
    EncodedNamesAreNames(names);
    if names == [] {
      assert EncodedNames(names) == [];
    } else {
      var n, es := |names| - 1, EncodedNames(names);
      EncodedNamesLast(names);
      ConvertedIs(names[..n]);
      RootedChild(es[..n], es[n]);
    }
  }

  lemma EncodedNamesLast(names: seq<string>)
    requires AllText(names) && Names(names) && names != []
    ensures var n, es := |names| - 1, EncodedNames(names);
            && AllText(names[..n]) && Names(names[..n]) && IsText(names[n])
            && es[..n] == EncodedNames(names[..n]) && es[n] == EncodedName(names[n])
            && es == es[..n] + [es[n]] && Names(es[..n]) && Name(es[n])
  {
    hide EncodedName, Name;
    var n, es := |names| - 1, EncodedNames(names);
    assert names[n] in names;
    EncodedNamesAreNames(names);
    assert es[n] in es;
  }

  /** A name put below a path of names. */
  lemma RootedChild(names: seq<string>, c: string)
    requires Names(names) && Name(c)
    ensures ChildString(Key(Rooted(names)), c) == Key(Rooted(names + [c]))
  {
    var k := Key(Rooted(names));
    ResolveRooted(names);
    SplitOne(c);
    ResolveNames([c], names);
    ChildNames(k, c, [c]);
  }

  lemma {:induction false} InvertedIs(names: seq<string>)
    requires AllText(names) && Names(names)
    ensures Inverted(EncodedNames(names)) == Key(Rooted(names))
  {
    hide EncodedName, DecodedText, ChildString, NamesOf;
    var n := |names| - 1;
    if names != [] {
      InvertedIs(names[..n]);
      assert names[n] in names;
      EncodedNameFacts(names[n]);
      assert EncodedNames(names)[..n] == EncodedNames(names[..n]);
      RootedChild(names[..n], names[n]);
      assert names[..n] + [names[n]] == names;
    }
  }

  /** The base58 converter encodes a key component by component, and its inverse undoes that. */
  lemma InvertConvert(k: Key)
    requires Cleaned(k) && AllText(List(k))
    ensures Cleaned(Converted(List(k)))
    ensures Inverted(List(Converted(List(k)))) == k
  {
    hide Converted, Inverted, List, NamesOf, Rooted;
    CleanedFacts(k);
    var names := NamesOf(k);
    if names == [] {
      ConvertRoot();
    } else {
      ConvertedIs(names);
      EncodedNamesAreNames(names);
      var c := Converted(names);
      NamesUnique(c, EncodedNames(names));
      CleanedFacts(c);
      InvertedIs(names);
    }
  }

  lemma NamesUnique(k: Key, names: seq<string>)
    requires Names(names) && k == Key(Rooted(names))
    ensures Cleaned(k) && NamesOf(k) == names
  {
    ResolveRooted(names);
  }

  lemma ConvertRoot()
    ensures Rooted([]) == "/" && Cleaned(ROOT) && IsText("")
    ensures Converted([""]) == ROOT && Inverted([""]) == ROOT && List(ROOT) == [""]
  {
    hide EncodedName, DecodedText;
    EncodedNameFacts("");
    NamesUnique(ROOT, []);
    CleanedFacts(ROOT);
    ChildNames(ROOT, "", []);
    assert [""][..0] == [];
    assert Inverted([]) == ROOT && Converted([]) == ROOT;
  }

  // ----- namespaces -----

  datatype Outcome<T> = Result(value: T) | Panic

  /** PrefixTransform's two functions. */
  function Convert(prefix: Key, k: Key): Key { Child(prefix, k) }

  function Invert(prefix: Key, k: Key): Outcome<Key> {
    if !IsAncestorOf(prefix, k) then Panic else Result(NewKey(k.s[|prefix.s|..]))
  }

  lemma ConvertNames(prefix: Key, k: Key)
    requires Cleaned(prefix) && Cleaned(k)
    ensures Convert(prefix, k) == Key(Rooted(NamesOf(prefix) + NamesOf(k)))
    ensures Cleaned(Convert(prefix, k)) && NamesOf(Convert(prefix, k)) == NamesOf(prefix) + NamesOf(k)
  {
    CleanedFacts(prefix);
    CleanedFacts(k);
    var names := NamesOf(k);
    SplitRooted(names);
    ResolveConcat([""], if names == [] then [""] else names, NamesOf(prefix));
    ResolveNames(names, NamesOf(prefix));
    ChildNames(prefix, k.s, names);
    NamesUnique(Convert(prefix, k), NamesOf(prefix) + names);
  }

  /** Below a prefix that is not the root, a key that is not the root is appended as it is. */
  lemma ConvertAppends(prefix: Key, k: Key)
    requires Cleaned(prefix) && Cleaned(k) && k != ROOT
    ensures k.s != "" && k.s[0] == '/'
    ensures Convert(prefix, k).s == if prefix == ROOT then k.s else prefix.s + k.s
  {
    hide Convert, NamesOf, Rooted;
    ConvertNames(prefix, k);
    CleanedFacts(prefix);
    CleanedFacts(k);
    RootedRoot(k);
    RootedRoot(prefix);
    var p, n := NamesOf(prefix), NamesOf(k);
    RootedConcat(p, n);
    assert [] + n == n;
  }

  lemma RootedConcat(p: seq<string>, n: seq<string>)
    requires n != []
    ensures Rooted(n)[0] == '/'
    ensures p != [] ==> Rooted(p + n) == Rooted(p) + Rooted(n)
  {
    if p != [] {
      JoinConcat(p, n);
      var a, b := Join(p), Join(n);
      assert p + n != [];
      hide Join;
      assert "/" + (a + "/" + b) == ("/" + a) + ("/" + b);
    }
  }

  lemma RootedRoot(k: Key)
    requires Cleaned(k)
    ensures k.s != "" && (k == ROOT <==> NamesOf(k) == [])
  {
    CleanedFacts(k);
    NamesUnique(ROOT, []);
  }

  /** For every key but the root, Invert undoes Convert; for the root it panics. */
  lemma InvertUndoesConvert(prefix: Key, k: Key)
    requires Cleaned(prefix) && Cleaned(k)
    ensures k != ROOT ==> Invert(prefix, Convert(prefix, k)) == Result(k)
    ensures k == ROOT ==> Invert(prefix, Convert(prefix, k)) == Panic
  {
    hide Convert, NewKey, Rooted, NamesOf;
    if k != ROOT {
      ConvertAppends(prefix, k);
      NewKeyCleans(k.s);
      SameAfterSlash(k);
      var c := Convert(prefix, k).s;
      assert prefix == ROOT ==> c[1..] == k.s[1..];
      assert prefix != ROOT ==> c[|prefix.s|..] == k.s;
    } else {
      ConvertNames(prefix, k);
      RootedRoot(k);
      CleanedFacts(prefix);
      assert NamesOf(prefix) + NamesOf(k) == NamesOf(prefix);
    }
  }

  lemma SameAfterSlash(k: Key)
    requires Cleaned(k) && k.s != "" && k.s[0] == '/'
    ensures NewKey(k.s[1..]) == k
  {
    CleanedFacts(k);
    assert "/" + k.s[1..] == k.s;
  }

  /** The key lies below the prefix in the hierarchy. */
  predicate Under(prefix: Key, k: Key) { NamesOf(prefix) < NamesOf(k) }

  /** The prefix ends where a name of the key ends. */
  predicate AtBoundary(prefix: Key, k: Key)
    requires IsAncestorOf(prefix, k)
  {
    prefix == ROOT || k.s[|prefix.s|] == '/'
  }

  /** IsAncestorOf is a test on strings: it means "below" exactly for keys that meet the prefix at a
      name's end, and only for those does Invert find the key that Convert maps there. */
  lemma AncestorIff(prefix: Key, k: Key)
    requires Cleaned(prefix) && Cleaned(k)
    ensures Under(prefix, k) <==> IsAncestorOf(prefix, k) && AtBoundary(prefix, k)
    ensures IsAncestorOf(prefix, k) ==>
              (Convert(prefix, Invert(prefix, k).value) == k <==> AtBoundary(prefix, k))
  {
    hide Convert, NewKey, Rooted, NamesOf;
    if Under(prefix, k) {
      UnderIsAncestor(prefix, k);
    }
    if IsAncestorOf(prefix, k) {
      if AtBoundary(prefix, k) {
        BoundaryIsUnder(prefix, k);
      }
      var j := Invert(prefix, k).value;
      NewKeyCleans(k.s[|prefix.s|..]);
      if Convert(prefix, j) == k {
        ConvertNames(prefix, j);
        CleanedFacts(prefix);
        CleanedFacts(k);
        assert NamesOf(prefix) != NamesOf(k);
      }
    }
  }

  lemma UnderIsAncestor(prefix: Key, k: Key)
    requires Cleaned(prefix) && Cleaned(k) && Under(prefix, k)
    ensures IsAncestorOf(prefix, k) && AtBoundary(prefix, k)
  {
    hide Convert, NamesOf, Rooted;
    CleanedFacts(prefix);
    CleanedFacts(k);
    var p, n := NamesOf(prefix), NamesOf(k)[|NamesOf(prefix)|..];
    assert p + n == NamesOf(k);
    assert Names(n) by {
      forall c | c in n ensures Name(c) {
        assert c in NamesOf(k);
      }
    }
    var j := Key(Rooted(n));
    NamesUnique(j, n);
    RootedRoot(j);
    ConvertAppends(prefix, j);
    ConvertNames(prefix, j);
  }

  lemma BoundaryIsUnder(prefix: Key, k: Key)
    requires Cleaned(prefix) && Cleaned(k) && IsAncestorOf(prefix, k) && AtBoundary(prefix, k)
    ensures Under(prefix, k)
    ensures Convert(prefix, Invert(prefix, k).value) == k
  {
    hide Convert, NamesOf, Rooted, Cleaned, NewKey, Names;
    CleanedFacts(k);
    RootedRoot(k);
    RootedRoot(prefix);
    if prefix == ROOT {
      SameAfterSlash(k);
      ConvertNames(prefix, k);
      assert NamesOf(prefix) + NamesOf(k) == NamesOf(k);
    } else {
      var rest := RestOf(prefix.s, k.s);
      BoundarySplits(prefix, k, rest);
      TailKey(k, NamesOf(prefix), rest);
      ConvertNames(prefix, NewKey("/" + rest));
    }
  }

  lemma RestOf(p: string, s: string) returns (rest: string)
    requires p < s && s[|p|] == '/'
    ensures s == p + "/" + rest && s[|p|..] == "/" + rest
  {
    rest := s[|p| + 1..];
  }

  lemma BoundarySplits(prefix: Key, k: Key, rest: string)
    requires Cleaned(prefix) && Cleaned(k) && k.s == prefix.s + "/" + rest
    requires NamesOf(prefix) != [] && NamesOf(k) != []
    ensures NamesOf(k) == NamesOf(prefix) + Split(rest)
  {
    hide NamesOf, Rooted;
    CleanedFacts(prefix);
    CleanedFacts(k);
    SplitConcat(prefix.s, rest);
    SplitRooted(NamesOf(prefix));
    SplitRooted(NamesOf(k));
    var p, n, tail := NamesOf(prefix), NamesOf(k), Split(rest);
    hide Split;
    assert [""] + n == [""] + p + tail;
    assert ([""] + n)[1..] == n && ([""] + p + tail)[1..] == p + tail;
  }

  lemma TailKey(k: Key, p: seq<string>, rest: string)
    requires Names(NamesOf(k)) && NamesOf(k) == p + Split(rest)
    ensures NewKey("/" + rest) == Key(Rooted(Split(rest)))
    ensures Cleaned(NewKey("/" + rest)) && NamesOf(NewKey("/" + rest)) == Split(rest)
  {
    var tail := Split(rest);
    assert Names(tail) by {
      forall c | c in tail ensures Name(c) {
        assert c in NamesOf(k);
      }
    }
    SplitConcat("", "/" + rest);
    SplitConcat("", rest);
    SplitOne("");
    assert "" + "/" + ("/" + rest) == "/" + ("/" + rest) && "" + "/" + rest == "/" + rest;
    assert Split("/" + ("/" + rest)) == [""] + ([""] + tail);
    ResolveConcat([""], [""] + tail, []);
    ResolveConcat([""], tail, []);
    ResolveNames(tail, []);
    assert [""][1..] == [] && Resolve([""], []) == [];
    assert [] + tail == tail;
    NamesUnique(NewKey("/" + rest), tail);
  }

  // ----- queries -----

  datatype Item = Entry(key: string, value: nat) | Failure(code: nat)

  /** What the namespace's Query makes of the results of the raw datastore. */
  function Queried(prefix: Key, results: seq<Item>): seq<Item> {
    if results == [] then []
    else
      var r := results[|results| - 1];
      Queried(prefix, results[..|results| - 1]) +
      if r.Failure? then [r]
      else if IsAncestorOf(prefix, NewKey(r.key)) then
        [Entry(Invert(prefix, NewKey(r.key)).value.s, r.value)]
      else []
  }

  method Query(prefix: Key, results: seq<Item>) returns (out: seq<Item>)
    ensures out == Queried(prefix, results)
  {
    hide NewKey, IsAncestorOf;
    out := [];
    for i := 0 to |results|
      invariant out == Queried(prefix, results[..i])
    {
      assert results[..i + 1][..i] == results[..i];
      var r := results[i];
      if r.Failure? {
        out := out + [r];
        continue;
      }
      var k := NewKey(r.key);
      if !IsAncestorOf(prefix, k) {
        continue;
      }
      out := out + [Entry(Invert(prefix, k).value.s, r.value)];
    }
    assert results[..|results|] == results;
  }

  /** Raw keys that share the prefix's letters share whole names. */
  ghost predicate AllAtBoundary(prefix: Key, results: seq<Item>) {
    forall r | r in results && r.Entry? && IsAncestorOf(prefix, NewKey(r.key)) :: AtBoundary(prefix, NewKey(r.key))
  }

  /** Then the query gives exactly the keys, other than the root, that were stored through the namespace. */
  lemma {:induction false} QueryExact(prefix: Key, results: seq<Item>, j: Key, value: nat)
    requires Cleaned(prefix) && Cleaned(j) && AllAtBoundary(prefix, results)
    ensures Entry(j.s, value) in Queried(prefix, results)
       <==> exists r :: r in results && r.Entry? && r.value == value && j != ROOT
                        && NewKey(r.key) == Convert(prefix, j)
    decreases |results|
  {
    hide NewKey, IsAncestorOf, Convert, AtBoundary, Invert;
    if results != [] {
      var init, r := results[..|results| - 1], results[|results| - 1];
      assert r in results && forall q | q in init :: q in results;
      QueryExact(prefix, init, j, value);
      if r.Entry? {
        QueryOne(prefix, r.key, j);
      }
      assert forall q :: q in results <==> q in init || q == r;
    }
  }

  /** Exactly then, every key that passes the filter goes back to the raw key it came from. */
  lemma QueryFaithfulIff(prefix: Key, results: seq<Item>)
    requires Cleaned(prefix)
    ensures AllAtBoundary(prefix, results)
       <==> forall r | r in results && r.Entry? && IsAncestorOf(prefix, NewKey(r.key)) ::
              Convert(prefix, Invert(prefix, NewKey(r.key)).value) == NewKey(r.key)
  {
    forall r | r in results && r.Entry? && IsAncestorOf(prefix, NewKey(r.key))
      ensures Convert(prefix, Invert(prefix, NewKey(r.key)).value) == NewKey(r.key)
         <==> AtBoundary(prefix, NewKey(r.key))
    {
      NewKeyCleans(r.key);
      AncestorIff(prefix, NewKey(r.key));
    }
    hide NewKey, IsAncestorOf, AtBoundary, Convert;
  }

  lemma QueryOne(prefix: Key, key: string, j: Key)
    requires Cleaned(prefix) && Cleaned(j)
    requires IsAncestorOf(prefix, NewKey(key)) ==> AtBoundary(prefix, NewKey(key))
    ensures IsAncestorOf(prefix, NewKey(key)) && Invert(prefix, NewKey(key)).value == j
       <==> j != ROOT && NewKey(key) == Convert(prefix, j)
  {
    hide NewKey, IsAncestorOf, Convert, AtBoundary, Invert, NamesOf, Rooted;
    NewKeyCleans(key);
    var k := NewKey(key);
    InvertPanics(prefix, k);
    AncestorIff(prefix, k);
    InvertUndoesConvert(prefix, j);
  }

  lemma InvertPanics(prefix: Key, k: Key)
    ensures Invert(prefix, k).Result? <==> IsAncestorOf(prefix, k)
  {
  }

  /** Otherwise it may give keys that nobody stored: below "/a", the raw key "/ab" comes out as "/b". */
  lemma QueryStray(value: nat)
    ensures Cleaned(Key("/a")) && Cleaned(Key("/b"))
    ensures Queried(Key("/a"), [Entry("/ab", value)]) == [Entry("/b", value)]
    ensures Convert(Key("/a"), Key("/b")) != NewKey("/ab")
  {
    var a, b, ab := Key("/a"), Key("/b"), Key("/ab");
    StrayKeys();
    hide NewKey, NamesOf, Rooted, IsAncestorOf;
    assert [Entry("/ab", value)][..0] == [];
    ConvertNames(a, b);
    assert NamesOf(Convert(a, b)) == ["a"] + ["b"] != ["ab"];
  }

  lemma StrayKeys()
    ensures Cleaned(Key("/a")) && Cleaned(Key("/b")) && NewKey("/ab") == Key("/ab")
    ensures NamesOf(Key("/a")) == ["a"] && NamesOf(Key("/b")) == ["b"] && NamesOf(Key("/ab")) == ["ab"]
    ensures IsAncestorOf(Key("/a"), Key("/ab")) && Invert(Key("/a"), Key("/ab")) == Result(Key("/b"))
  {
    hide NewKey, NamesOf, Rooted, Cleaned, Name;
    assert Name("a") && Name("b") && Name("ab") by {
      ShortNames();
    }
    OneName("a");
    OneName("b");
    OneName("ab");
    assert "/" + "a" == "/a" && "/" + "b" == "/b" && "/" + "ab" == "/ab";
    NewKeyCleans("/ab");
    assert "/ab" == "/a" + "b" && "/ab"[2..] == "b";
  }

  lemma ShortNames()
    ensures Name("a") && Name("b") && Name("ab")
  {
  }

  lemma OneName(c: string)
    requires Name(c)
    ensures Cleaned(Key("/" + c)) && NamesOf(Key("/" + c)) == [c] && NewKey(c) == Key("/" + c)
  {
    assert Names([c]) && Rooted([c]) == "/" + c;
    NamesUnique(Key("/" + c), [c]);
  }
}
