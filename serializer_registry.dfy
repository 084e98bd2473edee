/** The registry mapping media types to serialisers. */
module Registry {
  import opened Wrappers
  import opened Serializers

  /** `resolve` on a registry's contents: the serialiser registered under exactly `mediaType`. */
  function Lookup(serializers: map<string, Serializer>, mediaType: string): (r: Option<Serializer>)
    ensures r.Some? <==> mediaType in serializers
    ensures r.Some? ==> r.value == serializers[mediaType]
  {
    if mediaType in serializers then Some(serializers[mediaType]) else None
  }

  class SerializerRegistry {
    /** Media type to serialiser; keys are compared exactly, without any normalisation. */
    var serializers: map<string, Serializer>

    /** A fresh registry knows no media type. */
    constructor ()
      ensures serializers == map[]
      ensures forall m :: Lookup(serializers, m).None?
    {
      serializers := map[];
    }

    /** `register`: adds or replaces the entry for `mediaType` and leaves every other entry alone. */
    method Register(mediaType: string, serializer: Serializer)
      modifies this
      ensures serializers == old(serializers)[mediaType := serializer]
      ensures Lookup(serializers, mediaType) == Some(serializer)
      ensures forall m :: m != mediaType ==> Lookup(serializers, m) == Lookup(old(serializers), m)
    {
      serializers := serializers[mediaType := serializer];
    }

    /** `resolve`: the serialiser registered under `mediaType`, or none. */
    method Resolve(mediaType: string) returns (r: Option<Serializer>)
      ensures r == Lookup(serializers, mediaType)
    {
      if mediaType in serializers {
        r := Some(serializers[mediaType]);
      } else {
        r := None;
      }
    }
  }

  /** Registering twice under one media type keeps only the second serialiser. */
  lemma RegisterOverwrites(serializers: map<string, Serializer>, mediaType: string, first: Serializer, second: Serializer)
    ensures Lookup(serializers[mediaType := first][mediaType := second], mediaType) == Some(second)
    ensures serializers[mediaType := first][mediaType := second] == serializers[mediaType := second]
  {
  }

  /** A key that differs from a registered one, by parameters or otherwise, does not find it. */
  lemma ExactMatch(mediaType: string, other: string, serializer: Serializer)
    requires other != mediaType
    ensures Lookup(map[mediaType := serializer], other).None?
  {
  }
}
