/**
 * The talent-matching engine of the client view: a strict eligibility
 * filter (gender, then age), a stable ranking by a 0/1 voice-type score, and
 * a cap of ten suggestions.
 */
module ClientMatching {
  import opened JsText
  import opened Seqs
  import opened Model
  import opened ClientView
  import MockData

  /** The most suggestions shown for one role. */
  const MaxMatches: nat := 10

  // ---------------------------------------------------------------------
  // Eligibility

  /** A role of unspecified gender accepts anyone; otherwise the talent's
      normalised gender must be exactly the role's. */
  predicate GenderCompatible(roleGender: Gender, talentGender: Gender)
  {
    roleGender == Any || roleGender == talentGender
  }

  /** No recognised age constraint accepts anyone; otherwise the talent's
      raw age label must be literally one of the compatible labels. */
  predicate AgeCompatible(compatible: seq<string>, ageRange: string)
  {
    |compatible| == 0 || ageRange in compatible
  }

  /** Both checks of the strict filter. */
  predicate Eligible(role: RoleSpec, t: TalentProfile)
    ensures Eligible(role, t) && NormalizeGender(role.gender) != Any ==>
      NormalizeGender(t.gender) == NormalizeGender(role.gender)
    ensures Eligible(role, t) && CompatibleAgeRanges(role.ageRange) != [] ==> t.ageRange in MockData.AgeLabels
  {
    GenderCompatible(NormalizeGender(role.gender), NormalizeGender(t.gender))
    && AgeCompatible(CompatibleAgeRanges(role.ageRange), t.ageRange)
  }

  /** The filter's predicate for one role. */
  function EligibleFor(role: RoleSpec): TalentProfile -> bool
  {
    t => Eligible(role, t)
  }

  /** The talents passing the filter, in pool order. */
  function EligibleTalents(talents: seq<TalentProfile>, role: RoleSpec): seq<TalentProfile>
  {
    Filter(EligibleFor(role), talents)
  }

  // ---------------------------------------------------------------------
  // Ranking

  /** The words of the role's voice type: lower-cased and split on single
      spaces, so punctuation stays attached and runs of spaces give empty
      words. */
  function VoiceTokens(voiceType: string): (r: seq<string>)
    ensures |r| >= 1
    ensures forall k :: 0 <= k < |r| ==> ' ' !in r[k]
    ensures Join(r, " ") == ToLower(voiceType)
  {
    SplitPiecesFree(ToLower(voiceType), ' ');
    JoinSplit(ToLower(voiceType), ' ');
    Split(ToLower(voiceType), ' ')
  }

  /** 1 when some voice word occurs in the lower-cased description, else 0. */
  function Score(tokens: seq<string>, t: TalentProfile): (s: nat)
    ensures s <= 1
    ensures s == 1 <==> exists k :: 0 <= k < |tokens| && Contains(ToLower(t.description), tokens[k])
  {
    ContainsAnyIff(ToLower(t.description), tokens);
    if ContainsAny(ToLower(t.description), tokens) then 1 else 0
  }

  /** The talents with score 1. */
  function Relevant(tokens: seq<string>): TalentProfile -> bool
  {
    t => Score(tokens, t) == 1
  }

  /** The eligible talents after the stable descending sort on the score. */
  function Ranked(talents: seq<TalentProfile>, role: RoleSpec): seq<TalentProfile>
  {
    StablePartition(Relevant(VoiceTokens(role.voiceType)), EligibleTalents(talents, role))
  }

  /** What the engine suggests for a role: the first ten ranked talents. */
  function Matches(talents: seq<TalentProfile>, role: RoleSpec): (r: seq<TalentProfile>)
    ensures |r| <= MaxMatches
    ensures multiset(r) <= multiset(EligibleTalents(talents, role))
  {
    var ranked := Ranked(talents, role);
    StablePartitionPermutes(Relevant(VoiceTokens(role.voiceType)), EligibleTalents(talents, role));
    var r := Take(ranked, MaxMatches);
    assert ranked == r + ranked[|r|..];
    r
  }

  // ---------------------------------------------------------------------
  // The engine as the view runs it

  /** Extending the scanned prefix by one element extends exactly one of
      the two filters by it. */
  lemma SortStep<T>(p: T -> bool, s: seq<T>, i: nat)
    requires i < |s|
    ensures Filter(p, s[..i + 1]) == Filter(p, s[..i]) + (if p(s[i]) then [s[i]] else [])
    ensures Filter(Not(p), s[..i + 1]) == Filter(Not(p), s[..i]) + (if p(s[i]) then [] else [s[i]])
  {
    assert s[..i + 1] == s[..i] + [s[i]];
    FilterConcat(p, s[..i], [s[i]]);
    FilterConcat(Not(p), s[..i], [s[i]]);
  }

  /** Moves `a[i]` down to position `k`, shifting `a[k..i]` up by one. */
  method RotateDown<T>(a: array<T>, k: nat, i: nat)
    requires k <= i < a.Length
    modifies a
    ensures a[..] == old(a[..k]) + [old(a[i])] + old(a[k..i]) + old(a[i + 1..])
  {
    ghost var b := a[..];
    var x := a[i];
    var j := i;
    while j > k
      invariant k <= j <= i
      invariant forall m :: 0 <= m < j ==> a[m] == b[m]
      invariant forall m :: j < m <= i ==> a[m] == b[m - 1]
      invariant forall m :: i < m < a.Length ==> a[m] == b[m]
    {
      a[j] := a[j - 1];
      j := j - 1;
    }
    a[k] := x;
    RotationPointwise(b, a[..], k, i);
  }

  /** A sequence that agrees with `b` rotated, position by position, is
      that rotation. */
  lemma RotationPointwise<T>(b: seq<T>, c: seq<T>, k: nat, i: nat)
    requires k <= i < |b| == |c|
    requires forall m :: 0 <= m < k ==> c[m] == b[m]
    requires c[k] == b[i]
    requires forall m :: k < m <= i ==> c[m] == b[m - 1]
    requires forall m :: i < m < |c| ==> c[m] == b[m]
    ensures c == b[..k] + [b[i]] + b[k..i] + b[i + 1..]
  {
    var r := b[..k] + [b[i]] + b[k..i] + b[i + 1..];
    forall m | 0 <= m < |c|
      ensures c[m] == r[m]
    {
      if m < k {
      } else if m == k {
      } else if m <= i {
        assert r[m] == b[k..i][m - k - 1];
      } else {
        assert r[m] == b[i + 1..][m - i - 1];
      }
    }
  }

  /** The three slices of a rotated sequence. */
  lemma RotatedSlices<T>(b: seq<T>, r: seq<T>, k: nat, i: nat)
    requires k <= i < |b|
    requires r == b[..k] + [b[i]] + b[k..i] + b[i + 1..]
    ensures r[..k + 1] == b[..k] + [b[i]]
    ensures r[k + 1..i + 1] == b[k..i]
    ensures r[i + 1..] == b[i + 1..]
  {
  }

  /** One step of the partition: places `a[i]` at the end of its block. */
  method PartitionStep<T>(a: array<T>, p: T -> bool, ghost s: seq<T>, k: nat, i: nat) returns (k': nat)
    requires k <= i < a.Length == |s|
    requires a[..k] == Filter(p, s[..i])
    requires a[k..i] == Filter(Not(p), s[..i])
    requires a[i..] == s[i..]
    modifies a
    ensures k' <= i + 1
    ensures a[..k'] == Filter(p, s[..i + 1])
    ensures a[k'..i + 1] == Filter(Not(p), s[..i + 1])
    ensures a[i + 1..] == s[i + 1..]
  {
    SortStep(p, s, i);
    ghost var b := a[..];
    assert b[i] == s[i];
    assert b[i + 1..] == s[i + 1..];
    if p(a[i]) {
      RotateDown(a, k, i);
      RotatedSlices(b, a[..], k, i);
      k' := k + 1;
    } else {
      assert a[k..i + 1] == b[k..i] + [b[i]];
      k' := k;
    }
  }

  /** Sorts the array in place, talents with score 1 first, keeping the
      original order among equal scores. */
  method SortByRelevance(a: array<TalentProfile>, tokens: seq<string>)
    modifies a
    ensures a[..] == StablePartition(Relevant(tokens), old(a[..]))
  {
    ghost var s := a[..];
    var p := Relevant(tokens);
    var k := 0;
    var i := 0;
    while i < a.Length
      invariant 0 <= k <= i <= a.Length
      invariant a[..k] == Filter(p, s[..i])
      invariant a[k..i] == Filter(Not(p), s[..i])
      invariant a[i..] == s[i..]
    {
      k := PartitionStep(a, p, s, k, i);
      i := i + 1;
    }
    assert s[..a.Length] == s;
    assert a[..] == a[..k] + a[k..a.Length];
  }

  /** `findMatches`: filters the pool into a fresh array, sorts it by
      relevance, and keeps the first ten. */
  method FindMatches(talents: seq<TalentProfile>, role: RoleSpec) returns (r: seq<TalentProfile>)
    ensures r == Matches(talents, role)
    ensures |r| == if |EligibleTalents(talents, role)| < MaxMatches then |EligibleTalents(talents, role)| else MaxMatches
    ensures r == Ranked(talents, role)[..|r|]
  {
    var eligible := EligibleTalents(talents, role);
    var a := new TalentProfile[|eligible|](i requires 0 <= i < |eligible| => eligible[i]);
    assert a[..] == eligible;
    SortByRelevance(a, VoiceTokens(role.voiceType));
    StablePartitionPermutes(Relevant(VoiceTokens(role.voiceType)), eligible);
    r := Take(a[..], MaxMatches);
  }

  // ---------------------------------------------------------------------
  // Properties of the suggestions

  /** Every suggestion comes from the pool and passes both strict checks:
      a gendered role only gets talents of exactly that normalised gender,
      and a recognised age requirement only talents carrying one of its
      labels verbatim. */
  lemma MatchesAreEligible(talents: seq<TalentProfile>, role: RoleSpec)
    ensures forall t :: t in Matches(talents, role) ==>
      && t in talents
      && (NormalizeGender(role.gender) == Any || NormalizeGender(role.gender) == NormalizeGender(t.gender))
      && (CompatibleAgeRanges(role.ageRange) == [] || t.ageRange in CompatibleAgeRanges(role.ageRange))
  {
    var e := EligibleTalents(talents, role);
    var p := Relevant(VoiceTokens(role.voiceType));
    forall t | t in Matches(talents, role)
      ensures t in e
    {
      assert t in Filter(p, e) || t in Filter(Not(p), e);
      FilterMember(p, e, t);
      FilterMember(Not(p), e, t);
    }
    forall t | t in e
      ensures t in talents && Eligible(role, t)
    {
      FilterMember(EligibleFor(role), talents, t);
    }
  }

  /** A talent whose normalised gender differs from a gendered role's is
      never suggested; in particular a talent of unrecognised gender is
      excluded from every gendered role. */
  lemma GenderedRoleExcludes(talents: seq<TalentProfile>, role: RoleSpec, t: TalentProfile)
    requires NormalizeGender(role.gender) != Any
    requires NormalizeGender(t.gender) != NormalizeGender(role.gender)
    ensures t !in Matches(talents, role)
  {
    MatchesAreEligible(talents, role);
  }

  /** A role with no gender and no recognised age requirement filters
      nobody out. */
  lemma UnconstrainedRoleKeepsPool(talents: seq<TalentProfile>, role: RoleSpec)
    requires NormalizeGender(role.gender) == Any && CompatibleAgeRanges(role.ageRange) == []
    ensures EligibleTalents(talents, role) == talents
  {
    FilterAll(EligibleFor(role), talents);
  }

  /** Along the suggestions the score never goes up: every talent whose
      description matches the voice type comes before every one that does
      not. */
  lemma MatchesRankedByScore(talents: seq<TalentProfile>, role: RoleSpec)
    ensures forall i, j :: 0 <= i < j < |Matches(talents, role)| ==>
      Score(VoiceTokens(role.voiceType), Matches(talents, role)[j])
        <= Score(VoiceTokens(role.voiceType), Matches(talents, role)[i])
  {
    var tokens := VoiceTokens(role.voiceType);
    var r := Ranked(talents, role);
    var m := Matches(talents, role);
    StablePartitionKeyedFirst(Relevant(tokens), EligibleTalents(talents, role));
    forall i, j | 0 <= i < j < |m|
      ensures Score(tokens, m[j]) <= Score(tokens, m[i])
    {
      assert m[i] == r[i] && m[j] == r[j];
      assert Relevant(tokens)(r[j]) ==> Relevant(tokens)(r[i]);
    }
  }

  /** Within each score the suggestions keep the pool's order: the matching
      and the non-matching suggestions are prefixes of the matching and the
      non-matching eligible talents. */
  lemma MatchesKeepPoolOrder(talents: seq<TalentProfile>, role: RoleSpec)
    ensures Filter(Relevant(VoiceTokens(role.voiceType)), Matches(talents, role))
      <= Filter(Relevant(VoiceTokens(role.voiceType)), EligibleTalents(talents, role))
    ensures Filter(Not(Relevant(VoiceTokens(role.voiceType))), Matches(talents, role))
      <= Filter(Not(Relevant(VoiceTokens(role.voiceType))), EligibleTalents(talents, role))
  {
    var p := Relevant(VoiceTokens(role.voiceType));
    var e := EligibleTalents(talents, role);
    StablePartitionStable(p, e);
    FilterPrefix(p, Matches(talents, role), Ranked(talents, role));
    FilterPrefix(Not(p), Matches(talents, role), Ranked(talents, role));
  }

  /** With at most ten eligible talents every one of them is suggested, each
      exactly as often as it occurs in the pool. */
  lemma FewEligibleAllSuggested(talents: seq<TalentProfile>, role: RoleSpec)
    requires |EligibleTalents(talents, role)| <= MaxMatches
    ensures multiset(Matches(talents, role)) == multiset(EligibleTalents(talents, role))
  {
    StablePartitionPermutes(Relevant(VoiceTokens(role.voiceType)), EligibleTalents(talents, role));
    assert Matches(talents, role) == Ranked(talents, role);
  }

  /** An empty word, which an empty voice type or a doubled or trailing space
      produces, occurs in every description. */
  lemma EmptyWordScoresAll(tokens: seq<string>, t: TalentProfile)
    requires "" in tokens
    ensures Score(tokens, t) == 1
  {
    var k :| 0 <= k < |tokens| && tokens[k] == "";
    ContainsEmpty(ToLower(t.description));
  }

  /** When the voice type yields an empty word the ranking changes nothing:
      the suggestions are the first ten eligible talents in pool order. */
  lemma EmptyWordKeepsPoolOrder(talents: seq<TalentProfile>, role: RoleSpec)
    requires "" in VoiceTokens(role.voiceType)
    ensures Matches(talents, role) == Take(EligibleTalents(talents, role), MaxMatches)
  {
    var tokens := VoiceTokens(role.voiceType);
    var e := EligibleTalents(talents, role);
    forall i | 0 <= i < |e|
      ensures Relevant(tokens)(e[i])
    {
      EmptyWordScoresAll(tokens, e[i]);
    }
    FilterAll(Relevant(tokens), e);
    FilterNone(Not(Relevant(tokens)), e);
    assert Ranked(talents, role) == e + [];
  }

  /** An empty voice type gives the single empty word. */
  lemma EmptyVoiceTypeWords()
    ensures VoiceTokens("") == [""]
  {
    assert ToLower("") == "";
  }

  // ---------------------------------------------------------------------
  // The seeded roles

  /** The institutional role's voice type keeps its comma in the first word. */
  lemma InstitutionalVoiceTokens()
    ensures VoiceTokens(MockData.RoleInstitutional.voiceType) == ["cálida,", "tecnológica"]
  {
    InstitutionalVoiceType();
    InstitutionalVoiceLower();
    InstitutionalVoiceSplit();
  }

  lemma InstitutionalVoiceType()
    ensures MockData.RoleInstitutional.voiceType == "Cálida, Tecnológica"
  {
  }

  lemma InstitutionalVoiceLower()
    ensures ToLower("Cálida, Tecnológica") == "cálida, tecnológica"
  {
  }

  lemma InstitutionalVoiceSplit()
    ensures Split("cálida, tecnológica", ' ') == ["cálida,", "tecnológica"]
  {
    SplitTwoWords("cálida, tecnológica", "cálida,", "tecnológica");
  }

  /** Two space-free words joined by one space split back into them. */
  lemma SplitTwoWords(s: string, a: string, b: string)
    requires ' ' !in a && ' ' !in b && s == a + " " + b
    ensures Split(s, ' ') == [a, b]
  {
    assert s == a + [' '] + b;
    SplitAtSeparator(a, ' ', b);
    SplitNoSeparator(b, ' ');
  }

  /** Because the comma stays in the word, a "cálida" voice without a comma
      after it does not count as relevant for the institutional role. */
  lemma PunctuationStaysInWords(t: TalentProfile)
    requires t.description == "Voz cálida y cercana"
    ensures Score(VoiceTokens(MockData.RoleInstitutional.voiceType), t) == 0
  {
    InstitutionalVoiceTokens();
    WarmVoiceLower();
    WarmVoiceHasNoWord("voz cálida y cercana");
    ScoreZeroVia(["cálida,", "tecnológica"], t, "voz cálida y cercana");
  }

  lemma WarmVoiceLower()
    ensures ToLower("Voz cálida y cercana") == "voz cálida y cercana"
  {
  }

  lemma WarmVoiceHasNoWord(lower: string)
    requires lower == "voz cálida y cercana"
    ensures !ContainsAny(lower, ["cálida,", "tecnológica"])
  {
    ContainsNone(lower, ["cálida,", "tecnológica"], [6, 7]);
  }

  lemma ScoreZeroVia(tokens: seq<string>, t: TalentProfile, lower: string)
    requires ToLower(t.description) == lower && !ContainsAny(lower, tokens)
    ensures Score(tokens, t) == 0
  {
  }

  /** The documentary role ("Cualquiera", "40-50") accepts exactly the
      talents labelled "40-50", whatever their gender. */
  lemma DocumentaryRoleEligibility(t: TalentProfile)
    ensures Eligible(MockData.RoleDocumentaryNarrator.Spec(), t) <==> t.ageRange == "40-50"
  {
    var spec := MockData.RoleDocumentaryNarrator.Spec();
    var gender, age := spec.gender, spec.ageRange;
    assert gender == "Cualquiera" && age == "40-50";
    CualquieraIsAny(gender);
    LabelFixedPointForties(age);
    EligibleByParts(spec, t, Any, ["40-50"]);
  }

  /** The protagonist role ("Masculino", "20-30") accepts exactly the male
      talents labelled "20-30". */
  lemma ProtagonistRoleEligibility(t: TalentProfile)
    ensures Eligible(MockData.RoleProtagonist.Spec(), t) <==> NormalizeGender(t.gender) == Male && t.ageRange == "20-30"
  {
    var spec := MockData.RoleProtagonist.Spec();
    var gender, age := spec.gender, spec.ageRange;
    assert gender == "Masculino" && age == "20-30";
    MasculinoIsMale(gender);
    LabelFixedPointTwenties(age);
    EligibleByParts(spec, t, Male, ["20-30"]);
  }

  /** Eligibility once the role's gender and age label have been
      normalised. */
  lemma EligibleByParts(role: RoleSpec, t: TalentProfile, gender: Gender, ranges: seq<string>)
    requires NormalizeGender(role.gender) == gender && CompatibleAgeRanges(role.ageRange) == ranges
    ensures Eligible(role, t) <==> GenderCompatible(gender, NormalizeGender(t.gender)) && AgeCompatible(ranges, t.ageRange)
  {
  }
}
