/** Small types shared by all the models. */
module Wrappers {
  /** A string that is only ever compared as a whole: a name, a uid, a label. */
  datatype Text = Text(chars: string)

  const EMPTY := Text("")

  datatype Option<+T> = None | Some(value: T)

  datatype Result<+T, +E> = Ok(value: T) | Err(error: E)

  /** One step of a loop that takes the elements of a set in whatever order. */
  lemma TakeOne<T>(all: set<T>, done: set<T>, todo: set<T>, t: T)
    requires done + todo == all && done !! todo && t in todo
    ensures (done + {t}) + (todo - {t}) == all && (done + {t}) !! (todo - {t})
    ensures |todo - {t}| < |todo|
  {
  }

  lemma KeysAfterSet<K, V>(m: map<K, V>, k: K, v: V)
    ensures m[k := v].Keys == m.Keys + {k}
  {
  }

  /** One step of a loop that copies the entries of a map in whatever order. */
  lemma MoveOne<K, V>(m: map<K, V>, todo: map<K, V>, k: K)
    requires k in todo
    ensures m[k := todo[k]] + (todo - {k}) == m + todo && |todo - {k}| < |todo|
  {
    assert (todo - {k}).Keys == todo.Keys - {k};
  }

  lemma SameMap<K, V>(a: map<K, V>, b: map<K, V>)
    requires a.Keys == b.Keys && forall k :: k in a ==> a[k] == b[k]
    ensures a == b
  {
  }

  lemma FirstIsIn<T>(s: seq<T>)
    ensures s == [] || s[0] in s
  {
  }
}
