/**
 The scan profiles that a normalizer proposes, boefjes/boefjes/job_handler.py, lines 215-232. The levels are lowered in
 place, and it is the unfiltered list that is saved: it is safe only because the copies in it are the lowered ones, and
 because no level is below the default of -1.
 */
module ScanProfiles {

  type ScanLevel = level: int | 0 <= level <= 4

  datatype Option<+T> = None | Some(value: T)

  class DeclaredScanProfile {
    const reference: string
    var level: ScanLevel

    constructor (reference: string, level: ScanLevel)
      ensures this.reference == reference && this.level == level
    {
      this.reference := reference;
      this.level := level;
    }
  }

  /** What is sent for one profile. */
  datatype Sent = Sent(reference: string, level: ScanLevel)

  function Min(a: int, b: int): int {
    if a <= b then a else b
  }

  /** `whitelist.get(normalizer, default)`. */
  function Limit(whitelist: map<string, ScanLevel>, normalizer: string, default: int): int {
    if normalizer in whitelist then whitelist[normalizer] else default
  }

  /** `level` is the highest that is neither above `before` nor above what the whitelist allows. */
  ghost predicate Lowered(whitelist: map<string, ScanLevel>, normalizer: string, before: ScanLevel, level: ScanLevel) {
    && level <= before && (normalizer in whitelist ==> level <= whitelist[normalizer])
    && (level == before || (normalizer in whitelist && level == whitelist[normalizer]))
  }

  class NormalizerHandler {
    const whitelist: map<string, ScanLevel>

    constructor (whitelist: map<string, ScanLevel>)
      ensures this.whitelist == whitelist
    {
      this.whitelist := whitelist;
    }

    /** Lines 215-220: a profile may occur in the list more than once. */
    method Correct(normalizer: string, profiles: seq<DeclaredScanProfile>) returns (corrected: seq<DeclaredScanProfile>)
      modifies profiles
      ensures corrected == profiles
      ensures forall p | p in profiles :: Lowered(whitelist, normalizer, old(p.level), p.level)
    {
      corrected := [];
      for i := 0 to |profiles|
        invariant corrected == profiles[..i]
        invariant forall p | p in profiles[..i] :: Lowered(whitelist, normalizer, old(p.level), p.level)
        invariant forall p | p in profiles && p !in profiles[..i] :: p.level == old(p.level)
      {
        var profile := profiles[i];
        profile.level := Min(profile.level, Limit(whitelist, normalizer, profile.level));
        corrected := corrected + [profile];
        assert profiles[..i + 1] == profiles[..i] + [profile];
      }
    }

    /** Lines 222-226. */
    method Validate(normalizer: string, corrected: seq<DeclaredScanProfile>)
      returns (validated: seq<DeclaredScanProfile>)
      ensures normalizer !in whitelist ==> validated == []
      ensures forall p :: p in validated <==>
        p in corrected && normalizer in whitelist && p.level <= whitelist[normalizer]
      ensures (forall p | p in corrected :: p.level <= Limit(whitelist, normalizer, -1)) ==> validated == corrected
    {
      validated := [];
      for i := 0 to |corrected|
        invariant normalizer !in whitelist ==> validated == []
        invariant forall p :: p in validated <==>
          p in corrected[..i] && normalizer in whitelist && p.level <= whitelist[normalizer]
        invariant (forall p | p in corrected :: p.level <= Limit(whitelist, normalizer, -1)) ==>
          validated == corrected[..i]
      {
        var profile := corrected[i];
        assert profile in corrected && corrected[..i + 1] == corrected[..i] + [profile];
        if whitelist != map[] && profile.level <= Limit(whitelist, normalizer, -1) {
          validated := validated + [profile];
        }
      }
    }

    /** Lines 215-232: what is saved, if anything. Every proposed profile is saved, none above its proposed level or the
        level that the whitelist gives the normalizer; and nothing is saved for a normalizer that it does not list. */
    method SaveScanProfiles(normalizer: string, profiles: seq<DeclaredScanProfile>) returns (saved: Option<seq<Sent>>)
      modifies profiles
      ensures saved.Some? <==> profiles != [] && normalizer in whitelist
      ensures saved.Some? ==> |saved.value| == |profiles| && forall k | 0 <= k < |profiles| ::
        && saved.value[k].reference == profiles[k].reference
        && Lowered(whitelist, normalizer, old(profiles[k].level), saved.value[k].level)
      ensures forall p | p in profiles :: Lowered(whitelist, normalizer, old(p.level), p.level)
    {
      var corrected := Correct(normalizer, profiles);
      var validated := Validate(normalizer, corrected);
      saved := None;
      if validated != [] {
        var sent: seq<Sent> := [];
        for i := 0 to |profiles|
          invariant |sent| == i && forall k | 0 <= k < i :: sent[k] == Sent(profiles[k].reference, profiles[k].level)
        {
          sent := sent + [Sent(profiles[i].reference, profiles[i].level)];
        }
        saved := Some(sent);
      }
    }
  }
}
