/**
 * The stream key namer: a logical stream name becomes a key in the
 * "streams:" namespace, so that producers and consumers agree on a stream
 * without coordinating.
 */
module StreamKeys {
  import opened Wrappers

  /** The namespace every stream key lives in. */
  const Prefix: string := "streams:"

  /** The key of the stream with logical name `name`. */
  function Key(name: string): (key: string)
    ensures |key| == |Prefix| + |name|
    ensures key[..|Prefix|] == Prefix
    ensures key[|Prefix|..] == name
  {
    Prefix + name
  }

  /** The logical name a key was made from, or None when it is not in the namespace. */
  function LogicalName(key: string): Option<string>
  {
    if |Prefix| <= |key| && key[..|Prefix|] == Prefix then Some(key[|Prefix|..]) else None
  }

  /** Every name is recovered from its key. */
  lemma NameRoundTrip(name: string)
    ensures LogicalName(Key(name)) == Some(name)
  {
  }

  /** A string yields a name exactly when it is a key, and it is the key of the name it yields. */
  lemma KeyRoundTrip(key: string)
    ensures LogicalName(key).Some? <==> exists name :: Key(name) == key
    ensures LogicalName(key).Some? ==> Key(LogicalName(key).value) == key
  {
    if name :| Key(name) == key {
      NameRoundTrip(name);
    }
    if LogicalName(key).Some? {
      assert key == key[..|Prefix|] + key[|Prefix|..];
      assert Key(LogicalName(key).value) == key;
    }
  }

  /** Distinct names give distinct keys. */
  lemma KeyInjective(a: string, b: string)
    ensures Key(a) == Key(b) <==> a == b
  {
  }

  /** The key of "testing" is "streams:testing". */
  lemma KeyOfTesting()
    ensures Key("testing") == "streams:testing"
  {
  }
}
