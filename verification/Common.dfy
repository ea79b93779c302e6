/** Datatypes shared by every module of the model. */
module Common {
  datatype Option<+T> = None | Some(value: T)

  /** A Python call either returns a value or raises an exception. */
  datatype Outcome<+T, +E> = Ok(value: T) | Err(error: E)

  /** The elements of `s` in which `f` is defined, mapped through it, in order. */
  function Collect<A, B>(s: seq<A>, f: A -> Option<B>): (r: seq<B>)
  {
    if s == [] then [] else
      var init := Collect(s[..|s| - 1], f);
      match f(s[|s| - 1])
      case None => init
      case Some(b) => init + [b]
  }

  lemma TakeOneMore<T>(s: seq<T>, i: nat)
    requires i < |s|
    ensures s[..i + 1] == s[..i] + [s[i]] && s[..i + 1][..i] == s[..i]
  {
  }

  lemma TailsJoin<T>(a: seq<T>, b: seq<T>, c: seq<T>)
    requires a <= b <= c
    ensures b[|a|..] + c[|b|..] == c[|a|..]
  {
  }

  lemma Regroup<T>(a: seq<T>, b: seq<T>, c: seq<T>)
    ensures a + b + c == a + (b + c)
  {
  }
}
