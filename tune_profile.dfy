/** The parameters of the proportional load-balancing algorithm
    (ProportionalTuneProfile): the performance cache size and the proportionality
    factor, their defaults, the configuration keys they are read from, and the shared
    default profile. */
module TuneProfile {
  import opened JavaLang

  const DEFAULT_CACHE_SIZE: int := 2000
  const DEFAULT_FACTOR: int := 2

  /** The configuration key of the cache size of a named profile. */
  function CacheSizeKey(profile: string): string {
    "strategy." + profile + ".performanceCacheSize"
  }

  /** The configuration key of the proportionality factor of a named profile, spelt
      "propertionalityFactor" as the code reads it. */
  function FactorKey(profile: string): string {
    "strategy." + profile + ".propertionalityFactor"
  }

  /** The key read for the factor is not the property's name correctly spelt, so a
      configuration that spells it correctly is never read. */
  lemma FactorKeyMisspelt(profile: string)
    ensures FactorKey(profile) != "strategy." + profile + ".proportionalityFactor"
  {
    var p := "strategy." + profile + ".";
    assert FactorKey(profile) == p + "propertionalityFactor";
    assert "strategy." + profile + ".proportionalityFactor" == p + "proportionalityFactor";
    assert (p + "propertionalityFactor")[|p| + 4] == 'e';
    assert (p + "proportionalityFactor")[|p| + 4] == 'o';
  }

  /** The two keys of a profile are distinct, so the two settings never read each
      other's value. */
  lemma KeysDistinct(profile: string)
    ensures CacheSizeKey(profile) != FactorKey(profile)
  {
    var p := "strategy." + profile + ".";
    assert CacheSizeKey(profile) == p + "performanceCacheSize";
    assert FactorKey(profile) == p + "propertionalityFactor";
    assert (p + "performanceCacheSize")[|p| + 2] == 'r';
    assert (p + "propertionalityFactor")[|p| + 2] == 'o';
  }

  class Profile {
    var performanceCacheSize: int
    var proportionalityFactor: int

    /** new ProportionalTuneProfile() */
    constructor ()
      ensures performanceCacheSize == DEFAULT_CACHE_SIZE && proportionalityFactor == DEFAULT_FACTOR
    {
      performanceCacheSize := DEFAULT_CACHE_SIZE;
      proportionalityFactor := DEFAULT_FACTOR;
    }

    /** new ProportionalTuneProfile(profileName): each setting read from its key,
        defaulted when absent; `props` maps a key to the int it holds. */
    constructor Named(profile: string, props: string -> Option<int>)
      ensures props(CacheSizeKey(profile)).None? ==> performanceCacheSize == DEFAULT_CACHE_SIZE
      ensures props(CacheSizeKey(profile)).Some? ==> performanceCacheSize == props(CacheSizeKey(profile)).value
      ensures props(FactorKey(profile)).None? ==> proportionalityFactor == DEFAULT_FACTOR
      ensures props(FactorKey(profile)).Some? ==> proportionalityFactor == props(FactorKey(profile)).value
    {
      var size := props(CacheSizeKey(profile));
      var factor := props(FactorKey(profile));
      performanceCacheSize := if size.Some? then size.value else DEFAULT_CACHE_SIZE;
      proportionalityFactor := if factor.Some? then factor.value else DEFAULT_FACTOR;
    }

    method SetPerformanceCacheSize(n: int)
      modifies this
      ensures performanceCacheSize == n && proportionalityFactor == old(proportionalityFactor)
    {
      performanceCacheSize := n;
    }

    method SetProportionalityFactor(n: int)
      modifies this
      ensures proportionalityFactor == n && performanceCacheSize == old(performanceCacheSize)
    {
      proportionalityFactor := n;
    }

    /** copy: a new profile with both settings equal to this one's. */
    method Copy() returns (p: Profile)
      ensures fresh(p)
      ensures p.performanceCacheSize == performanceCacheSize && p.proportionalityFactor == proportionalityFactor
    {
      p := new Profile();
      p.SetPerformanceCacheSize(performanceCacheSize);
      p.SetProportionalityFactor(proportionalityFactor);
    }
  }

  /** The class's static state: the default profile, created once. */
  class Defaults {
    const defaultProfile: Profile

    constructor ()
      ensures fresh(defaultProfile)
      ensures defaultProfile.performanceCacheSize == DEFAULT_CACHE_SIZE
      ensures defaultProfile.proportionalityFactor == DEFAULT_FACTOR
    {
      defaultProfile := new Profile();
    }

    /** getDefaultProfile: the same shared instance on every call. */
    method GetDefaultProfile() returns (p: Profile)
      ensures p == defaultProfile
    {
      p := defaultProfile;
    }
  }
}
