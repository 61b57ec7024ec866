/** The Ruby values the two stores handle: hash keys, which are Symbols or
    Strings, and the values put into a configuration, which are scalars or
    (nested) Hashes. */
module Values {

  datatype Option<+T> = None | Some(value: T)

  /** A Hash key. `Sym("a")` is `:a`, `Str("a")` is `"a"`; Ruby keeps the two
      apart as hash keys. */
  datatype Key = Sym(name: string) | Str(name: string)

  /** `Key#to_sym`: both spellings of a name become the same symbol, which is
      represented here by its name. */
  function ToSym(k: Key): string
  {
    match k
    case Sym(n) => n
    case Str(n) => n
  }

  /** A configuration value as a caller passes it in: an opaque scalar, or a
      Hash, whose entries are kept in insertion order (Ruby's `Hash#each`
      order). A nested shape is smaller than the Hash that holds it, which
      is what makes recursive wrapping terminate. */
  datatype Shape = Scalar(x: int) | Hash(entries: seq<(Key, Shape)>)

  /** A top-level configuration Hash as the owner registry stores it. */
  type Table = map<Key, Shape>

  /** The set of normalised names of a Hash's keys. */
  function KeysOf(es: seq<(Key, Shape)>): set<string>
  {
    set i | 0 <= i < |es| :: ToSym(es[i].0)
  }

  /** Adding one entry to a Hash adds its normalised key to the key set. */
  lemma KeysOfExtend(es: seq<(Key, Shape)>, i: nat)
    requires i < |es|
    ensures KeysOf(es[..i + 1]) == KeysOf(es[..i]) + {ToSym(es[i].0)}
  {
  }
}
