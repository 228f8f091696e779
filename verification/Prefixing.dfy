/** A result that arrives piece by piece: what is done, in front of what may still fail. */
module Prefixing {
  import opened Prelude

  function Prepend<T>(head: seq<T>, rest: Option<seq<T>>): Option<seq<T>> {
    match rest case None => None case Some(tail) => Some(head + tail)
  }

  lemma PrependSnoc<T>(head: seq<T>, x: T, rest: Option<seq<T>>)
    ensures Prepend(head, Prepend([x], rest)) == Prepend(head + [x], rest)
  {
    if rest.Some? { assert head + ([x] + rest.value) == (head + [x]) + rest.value; }
  }

  lemma PrependNone<T>(head: seq<T>)
    ensures Prepend(head, None) == None
  {
  }

  lemma PrependPrefix<T>(head: seq<T>, rest: Option<seq<T>>, whole: seq<T>)
    requires Prepend(head, rest) == Some(whole)
    ensures |head| <= |whole| && whole[..|head|] == head
  {
  }

  lemma PrependEmpty<T>(whole: Option<seq<T>>)
    ensures Prepend([], whole) == whole
  {
    if whole.Some? { assert [] + whole.value == whole.value; }
  }
}
