/**
 * Topic resolution. A thing-scoped ("internal") topic is written relative to the
 * device and gets the configured topic prefix prepended; a global topic is an
 * absolute path and is used exactly as given.
 */
module Topics {

  /** The topic a registration with the given namespace flag ends up on. */
  function Resolve(prefix: string, t: string, internal: bool): (r: string)
    ensures internal ==> |r| == |prefix| + |t| && r[..|prefix|] == prefix && r[|prefix|..] == t
    ensures !internal ==> r == t
  {
    if internal then prefix + t else t
  }

  /** Two distinct relative topics never collide once the prefix is prepended. */
  lemma ThingTopicInjective(prefix: string, a: string, b: string)
    ensures Resolve(prefix, a, true) == Resolve(prefix, b, true) <==> a == b
  {
  }

  /** A global topic does not depend on the configured prefix. */
  lemma GlobalTopicVerbatim(prefix: string, prefix': string, t: string)
    ensures Resolve(prefix, t, false) == Resolve(prefix', t, false)
  {
  }
}
