// Helpers shared by every component.
module Common {

  datatype Option<+T> = None | Some(value: T)

  function Max(a: int, b: int): int {
    if a >= b then a else b
  }

  lemma Assoc<T>(a: seq<T>, b: seq<T>, c: seq<T>)
    ensures a + b + c == a + (b + c)
  {
  }

  // What the tail of a concatenation is.
  lemma TailOfConcat<T>(a: seq<T>, b: seq<T>)
    requires a != []
    ensures (a + b)[0] == a[0] && (a + b)[1..] == a[1..] + b
  {
  }

  // The head of what is to come joins what is past.
  lemma HeadMoves<T>(past: seq<T>, next: seq<T>)
    requires next != []
    ensures past + [next[0]] + next[1..] == past + next
  {
  }

  function Min(a: int, b: int): int {
    if a <= b then a else b
  }

  // The position of the first `c`, or the length.
  function Find(s: string, c: char): (i: nat)
    ensures i <= |s|
  {
    if s == [] || s[0] == c then 0 else 1 + Find(s[1..], c)
  }

  lemma {:induction false} Found(s: string, c: char)
    ensures var i := Find(s, c); c !in s[..i] && (i < |s| ==> s[i] == c)
  {
    if s != [] && s[0] != c {
      Found(s[1..], c);
      var i := Find(s, c);
      assert s[..i] == [s[0]] + s[1..][..i - 1];
    }
  }

  // The position of the first occurrence of `t`, or the length of `s`.
  function FindText(s: string, t: string): (i: nat)
    requires t != []
    ensures i <= |s|
  {
    if s == [] || t <= s then 0 else 1 + FindText(s[1..], t)
  }

  lemma {:induction false} FoundText(s: string, t: string)
    requires t != []
    ensures var i := FindText(s, t); (i < |s| ==> t <= s[i..]) && forall k :: 0 <= k < i ==> !(t <= s[k..])
  {
    if s != [] && !(t <= s) {
      FoundText(s[1..], t);
      assert forall k :: 1 <= k <= |s| ==> s[k..] == s[1..][k - 1..];
    }
  }

  predicate Contains(s: string, t: string)
    requires t != []
  {
    FindText(s, t) < |s|
  }
}
