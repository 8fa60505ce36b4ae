/** What speaks for a template: its dominant labels, and the one integer score the reservoir ranks by. */
module SalienceScores {
  import opened Options
  import opened Orders
  import opened Bytes
  import opened ComposeLabels
  import opened RunningBest

  type RoleId = n: nat | n < 256

  const NO_ROLE: RoleId := 0

  // ---------------------------------------------------------------- dominant labels

  datatype LevelVotes = LevelVotes(level: LevelId, count: nat)

  datatype RoleVotes = RoleVotes(role: RoleId, count: nat)

  datatype TextVotes = TextVotes(text: Text, count: nat)

  /** The unknown level is the highest id but ranks below every real one. */
  function SeverityRank(level: LevelId): int { if level == UNKNOWN then -1 else level as int }

  const LevelBeats: (LevelVotes, LevelVotes) -> bool :=
    (a: LevelVotes, b: LevelVotes) => a.count > b.count
        || (a.count == b.count && SeverityRank(a.level) > SeverityRank(b.level))

  const RoleBeats: (RoleVotes, RoleVotes) -> bool := (a: RoleVotes, b: RoleVotes) => a.count > b.count
      || (a.count == b.count && a.role > b.role)

  const TextBeats: (TextVotes, TextVotes) -> bool := (a: TextVotes, b: TextVotes) => a.count > b.count
      || (a.count == b.count && LexLess(a.text, b.text))

  lemma VotesAreTotal()
    ensures StrictTotal(LevelBeats) && StrictTotal(RoleBeats) && StrictTotal(TextBeats)
    ensures StrictWeak(LevelBeats) && StrictWeak(RoleBeats) && StrictWeak(TextBeats)
  {
    TextBeatsIsTotal();
    forall x, y ensures x == y || LevelBeats(x, y) || LevelBeats(y, x) {
      assert x.level == y.level || SeverityRank(x.level) != SeverityRank(y.level);
      assert x == LevelVotes(x.level, x.count) && y == LevelVotes(y.level, y.count);
    }
    forall x, y ensures x == y || RoleBeats(x, y) || RoleBeats(y, x) {
      assert x == RoleVotes(x.role, x.count) && y == RoleVotes(y.role, y.count);
    }
    TotalIsWeak(LevelBeats);
    TotalIsWeak(RoleBeats);
    TotalIsWeak(TextBeats);
  }

  lemma TextBeatsIsTotal()
    ensures StrictTotal(TextBeats)
  {
    hide LexLess;
    forall x ensures !TextBeats(x, x) { LexIrreflexive(x.text); }
    forall x, y, z | TextBeats(x, y) && TextBeats(y, z) ensures TextBeats(x, z) {
      if x.count == y.count == z.count { LexTransitive(x.text, y.text, z.text); }
    }
    forall x, y ensures x == y || TextBeats(x, y) || TextBeats(y, x) { LexTrichotomy(x.text, y.text); }
  }

  function LevelVotesOf(levels: map<LevelId, nat>): (r: set<LevelVotes>)
    ensures forall k :: k in levels ==> LevelVotes(k, levels[k]) in r
    ensures forall v :: v in r ==> v.level in levels && v.count == levels[v.level]
  {
    set k | k in levels :: LevelVotes(k, levels[k])
  }

  function RoleVotesOf(roles: map<RoleId, nat>): (r: set<RoleVotes>)
    ensures forall k :: k in roles ==> RoleVotes(k, roles[k]) in r
    ensures forall v :: v in r ==> v.role in roles && v.count == roles[v.role]
  {
    set k | k in roles :: RoleVotes(k, roles[k])
  }

  function TextVotesOf(texts: map<Text, nat>): (r: set<TextVotes>)
    ensures forall k :: k in texts ==> TextVotes(k, texts[k]) in r
    ensures forall v :: v in r ==> v.text in texts && v.count == texts[v.text]
  {
    set k | k in texts :: TextVotes(k, texts[k])
  }

  /** The level with most votes, the more severe on a tie; none when nothing voted. */
  ghost predicate IsDominantLevel(levels: map<LevelId, nat>, level: Option<LevelId>) {
    if levels == map[] then level.None?
    else
        level.Some? && level.value in levels
            && IsStrongest(LevelBeats, LevelVotesOf(levels), LevelVotes(level.value, levels[level.value]))
  }

  ghost predicate IsDominantRole(roles: map<RoleId, nat>, role: RoleId) {
    if roles == map[] then role == NO_ROLE
    else role in roles && IsStrongest(RoleBeats, RoleVotesOf(roles), RoleVotes(role, roles[role]))
  }

  /** The component with most votes, the lesser text on a tie; the empty text when nothing voted. */
  ghost predicate IsDominantText(texts: map<Text, nat>, text: Text) {
    if texts == map[] then text == []
    else text in texts && IsStrongest(TextBeats, TextVotesOf(texts), TextVotes(text, texts[text]))
  }

  /** A dominant label is one value: no iteration order of the votes can change it. */
  lemma DominantIsUnique(levels: map<LevelId, nat>, l: Option<LevelId>, l': Option<LevelId>, roles: map<RoleId, nat>,
                         r: RoleId, r': RoleId,
                         texts: map<Text, nat>, t: Text, t': Text)
    requires IsDominantLevel(levels, l) && IsDominantLevel(levels, l')
    requires IsDominantRole(roles, r) && IsDominantRole(roles, r')
    requires IsDominantText(texts, t) && IsDominantText(texts, t')
    ensures l == l' && r == r' && t == t'
  {
    VotesAreTotal();
    hide IsStrongest, LevelBeats, RoleBeats, TextBeats;
    if levels != map[] { StrongestTotal(LevelBeats, LevelVotesOf(levels), LevelVotes(l.value, levels[l.value]),
                                        LevelVotes(l'.value, levels[l'.value])); }
    if roles != map[] { StrongestTotal(RoleBeats, RoleVotesOf(roles), RoleVotes(r, roles[r]),
                                       RoleVotes(r', roles[r'])); }
    if texts != map[] { StrongestTotal(TextBeats, TextVotesOf(texts), TextVotes(t, texts[t]),
                                       TextVotes(t', texts[t'])); }
  }

  /** A dominant label has the most votes; of levels that share the most it is the most severe, Unknown below all; of
      roles the highest id; of components the text that comes first. */
  lemma DominantHasMost(levels: map<LevelId, nat>, l: Option<LevelId>, roles: map<RoleId, nat>, r: RoleId,
                        texts: map<Text, nat>, t: Text)
    requires IsDominantLevel(levels, l) && IsDominantRole(roles, r) && IsDominantText(texts, t)
    ensures l == None <==> levels == map[]
    ensures levels != map[] ==> l.value in levels && forall k :: k in levels && k != l.value ==>
              levels[k] < levels[l.value] || (levels[k] == levels[l.value] && (k == 6 || (l.value != 6 && k < l.value)))
    ensures roles == map[] ==> r == 0
    ensures roles != map[] ==> r in roles && forall k :: k in roles && k != r ==>
              roles[k] < roles[r] || (roles[k] == roles[r] && k < r)
    ensures texts == map[] ==> t == []
    ensures texts != map[] ==> t in texts && forall k :: k in texts && k != t ==>
              texts[k] < texts[t] || (texts[k] == texts[t] && LexLess(t, k))
  {
    hide LexLess;
    forall k | k in levels && levels != map[] && k != l.value
      ensures levels[k] < levels[l.value]
           || (levels[k] == levels[l.value] && (k == 6 || (l.value != 6 && k < l.value)))
    {
      assert !LevelBeats(LevelVotes(k, levels[k]), LevelVotes(l.value, levels[l.value]));
    }
    forall k | k in roles && k != r ensures roles[k] < roles[r] || (roles[k] == roles[r] && k < r) {
      assert !RoleBeats(RoleVotes(k, roles[k]), RoleVotes(r, roles[r]));
    }
    forall k | k in texts && k != t ensures texts[k] < texts[t] || (texts[k] == texts[t] && LexLess(t, k)) {
      assert !TextBeats(TextVotes(k, texts[k]), TextVotes(t, texts[t]));
      LexTrichotomy(t, k);
    }
  }

  method DominantLevelOf(levels: map<LevelId, nat>) returns (level: Option<LevelId>)
    ensures IsDominantLevel(levels, level)
  {
    if levels == map[] {
      return None;
    }
    VotesAreTotal();
    var first :| first in levels;
    var votes := LevelVotesOf(levels);
    var best := PickStrongest(LevelBeats, LevelVotes(first, levels[first]), votes);
    assert votes + {LevelVotes(first, levels[first])} == votes;
    return Some(best.level);
  }

  /** The running best starts at no role with no votes, which any counted role beats. */
  method DominantRoleOf(roles: map<RoleId, nat>) returns (role: RoleId)
    requires forall k :: k in roles ==> roles[k] > 0
    ensures IsDominantRole(roles, role)
  {
    VotesAreTotal();
    var votes, start := RoleVotesOf(roles), RoleVotes(NO_ROLE, 0);
    var best := PickStrongest(RoleBeats, start, votes);
    if roles != map[] {
      var k :| k in roles;
      assert !RoleBeats(RoleVotes(k, roles[k]), best);
      assert IsStrongest(RoleBeats, votes, best);
    } else {
      assert votes == {};
    }
    return best.role;
  }

  method DominantComponentOf(components: map<Text, nat>) returns (component: Text)
    ensures IsDominantText(components, component)
  {
    if components == map[] {
      return [];
    }
    VotesAreTotal();
    var first :| first in components;
    var votes := TextVotesOf(components);
    var best := PickStrongest(TextBeats, TextVotes(first, components[first]), votes);
    assert votes + {TextVotes(first, components[first])} == votes;
    return best.text;
  }

  // ---------------------------------------------------------------- bands

  const BAND_FATAL := 100
  const BAND_STRONG_OFF_PATH := 90
  const BAND_TERMINATOR := 90
  const BAND_ERROR := 80
  const BAND_OFF_PATH := 75
  const BAND_FAILURE_CUE := 70
  const BAND_NOVELTY_LATE := 60
  const BAND_UNCOMMON := 50
  const BAND_NOVELTY_MID := 40
  const BAND_WARN := 30
  const BAND_SOMEWHAT_RARE := 25
  const BAND_NOVELTY_EARLY := 20

  const SALIENCE_FULL_SCALE := 10000

  /** How rare an edge is among what leaves its source; one observation says nothing. */
  function SurpriseBand(count: nat, outgoing: nat): nat {
    if count < 2 || outgoing == 0 then 0
    else if count * 50 < outgoing then BAND_STRONG_OFF_PATH
    else if count * 20 < outgoing then BAND_OFF_PATH
    else if count * 10 < outgoing then BAND_UNCOMMON
    else if count * 5 < outgoing then BAND_SOMEWHAT_RARE
    else 0
  }

  /** How late in its own window a recurring template was first seen. */
  function NoveltyBand(firstSeen: nat, lines: nat, count: nat): nat {
    if count < 2 || lines == 0 then 0
    else if firstSeen * 10 > lines * 9 then BAND_NOVELTY_LATE
    else if firstSeen * 4 > lines * 3 then BAND_NOVELTY_MID
    else if firstSeen * 2 > lines then BAND_NOVELTY_EARLY
    else 0
  }

  function Rarity(count: nat, lines: nat): nat {
    if lines == 0 || count * 1000 < lines then 100
    else if count * 100 < lines then 90
    else if count * 10 < lines then 60
    else 30
  }

  datatype Axis = LevelAxis | FailureCueAxis | TerminatorAxis | SurpriseAxis | NoveltyAxis

  datatype Verdict = Verdict(score: nat, axis: Axis)

  const NO_VERDICT := Verdict(0, LevelAxis)

  const LEVEL_WARN: LevelId := 3
  const LEVEL_ERROR: LevelId := 4
  const LEVEL_FATAL: LevelId := 5

  /** A membership test: the unknown level sorts above FATAL and is no failure. */
  predicate IsFailureLevel(level: Option<EventLevel>)
      { level.Some? && (level.value.value == LEVEL_ERROR || level.value.value == LEVEL_FATAL) }

  datatype Evidence = Evidence(level: Option<LevelId>, terminator: bool, cue: bool, surprise: nat, novelty: nat)

  function LevelBand(level: Option<LevelId>): nat {
    if level == Some(LEVEL_FATAL) then BAND_FATAL else if level == Some(LEVEL_ERROR) then BAND_ERROR
    else if level == Some(LEVEL_WARN) then BAND_WARN else 0
  }

  /** What each axis offers, in the order the axes are asked. */
  function Offers(e: Evidence): seq<Verdict> {
    [Verdict(if e.terminator then BAND_TERMINATOR else 0, TerminatorAxis), Verdict(LevelBand(e.level), LevelAxis),
     Verdict(if e.cue then BAND_FAILURE_CUE else 0, FailureCueAxis), Verdict(e.surprise, SurpriseAxis),
         Verdict(e.novelty, NoveltyAxis)]
  }

  /** The first of the strongest offers. */
  ghost predicate FirstStrongest(offers: seq<Verdict>, v: Verdict) {
    exists i :: 0 <= i < |offers| && offers[i] == v
      && (forall j :: 0 <= j < |offers| ==> offers[j].score <= v.score)
          && (forall j :: 0 <= j < i ==> offers[j].score < v.score)
  }

  function Consider(best: Verdict, band: nat, axis: Axis): Verdict
      { if band > best.score then Verdict(band, axis) else best }

  /** A running maximum over the offers: only a strictly stronger one replaces the verdict. */
  function Strongest(offers: seq<Verdict>): Verdict {
    if offers == [] then NO_VERDICT
    else Consider(Strongest(offers[..|offers| - 1]), offers[|offers| - 1].score, offers[|offers| - 1].axis)
  }

  /** A template's salience: nothing when no axis speaks for it, the strongest band scaled by rarity otherwise. */
  function SalienceOf(e: Evidence, count: nat, lines: nat): Verdict {
    var v := Strongest(Offers(e));
    if v.score == 0 then NO_VERDICT else v.(score := v.score * Rarity(count, lines))
  }

  lemma {:induction false} StrongestIsFirst(offers: seq<Verdict>)
    ensures Strongest(offers).score > 0 ==> FirstStrongest(offers, Strongest(offers))
    ensures forall j :: 0 <= j < |offers| ==> offers[j].score <= Strongest(offers).score
    ensures Strongest(offers).score == 0 ==> Strongest(offers) == NO_VERDICT
  {
    if offers != [] {
      var front, last := offers[..|offers| - 1], offers[|offers| - 1];
      StrongestIsFirst(front);
      var v := Strongest(front);
      assert offers == front + [last];
      if last.score > v.score {
        assert offers[|offers| - 1] == Strongest(offers);
      } else if v.score > 0 {
        var i :| 0 <= i < |front| && front[i] == v && (forall j :: 0 <= j < |front| ==> front[j].score <= v.score)
            && (forall j :: 0 <= j < i ==> front[j].score < v.score);
        assert offers[i] == v;
      }
    }
  }

  /** The score is the strongest band any axis offers, scaled by rarity, and its axis is the first to offer
      that band; a template no axis speaks for stays at nothing, however rare; no score passes the full scale. */
  lemma SalienceIsSoftMax(e: Evidence, count: nat, lines: nat)
    ensures var v := SalienceOf(e, count, lines);
            && (v.score == 0 <==> forall j :: 0 <= j < |Offers(e)| ==> Offers(e)[j].score == 0)
            && (v.score > 0 ==> exists band ::
                v.score == band * Rarity(count, lines) && FirstStrongest(Offers(e), Verdict(band, v.axis)))
            && (e.surprise <= BAND_STRONG_OFF_PATH && e.novelty <= BAND_NOVELTY_LATE ==> v.score <= SALIENCE_FULL_SCALE)
  {
    var best, rarity := Strongest(Offers(e)), Rarity(count, lines);
    StrongestIsFirst(Offers(e));
    hide Strongest, Offers, Consider;
    if best.score > 0 {
      assert FirstStrongest(Offers(e), Verdict(best.score, best.axis)) by
          { assert Verdict(best.score, best.axis) == best; }
      Scaled(best.score, rarity);
      if e.surprise <= BAND_STRONG_OFF_PATH && e.novelty <= BAND_NOVELTY_LATE { BandsWithin(e); }
    }
  }

  lemma Scaled(band: nat, rarity: nat)
    requires 30 <= rarity <= 100 && band > 0
    ensures band * rarity > 0 && (band <= BAND_FATAL ==> band * rarity <= SALIENCE_FULL_SCALE)
  {
    assert band <= BAND_FATAL ==> band * rarity <= 100 * rarity;
  }

  lemma BandsWithin(e: Evidence)
    requires e.surprise <= BAND_STRONG_OFF_PATH && e.novelty <= BAND_NOVELTY_LATE
    ensures forall j :: 0 <= j < |Offers(e)| ==> Offers(e)[j].score <= BAND_FATAL
  {}

  lemma SurpriseWithin(count: nat, outgoing: nat, first: nat, lines: nat, occurrences: nat)
    ensures SurpriseBand(count, outgoing) <= BAND_STRONG_OFF_PATH
        && NoveltyBand(first, lines, occurrences) <= BAND_NOVELTY_LATE
  {}

  method SalienceScore(e: Evidence, count: nat, lines: nat) returns (v: Verdict)
    ensures v == SalienceOf(e, count, lines)
  {
    v := NO_VERDICT;
    if e.terminator {
      v := Consider(v, BAND_TERMINATOR, TerminatorAxis);
    }
    if e.level.Some? {
      if e.level.value == LEVEL_FATAL {
        v := Consider(v, BAND_FATAL, LevelAxis);
      } else if e.level.value == LEVEL_ERROR {
        v := Consider(v, BAND_ERROR, LevelAxis);
      } else if e.level.value == LEVEL_WARN {
        v := Consider(v, BAND_WARN, LevelAxis);
      }
    }
    if e.cue {
      v := Consider(v, BAND_FAILURE_CUE, FailureCueAxis);
    }
    v := Consider(v, e.surprise, SurpriseAxis);
    v := Consider(v, e.novelty, NoveltyAxis);
    OffersUnrolled(e);
    if v.score == 0 {
      return NO_VERDICT;
    }
    var rarity := 100;
    if lines > 0 {
      if count * 1000 < lines {
        rarity := 100;
      } else if count * 100 < lines {
        rarity := 90;
      } else if count * 10 < lines {
        rarity := 60;
      } else {
        rarity := 30;
      }
    }
    v := v.(score := v.score * rarity);
  }

  lemma OffersUnrolled(e: Evidence)
    ensures var o := Offers(e);
            Strongest(o) == Consider(Consider(Consider(Consider(Consider(NO_VERDICT, o[0].score, o[0].axis),
                                                                o[1].score, o[1].axis),
                                                       o[2].score, o[2].axis), o[3].score, o[3].axis), o[4].score,
                                                           o[4].axis)
  {
    var o := Offers(e);
    assert o[..5][..4] == o[..4] && o[..4][..3] == o[..3] && o[..3][..2] == o[..2] && o[..2][..1] == o[..1]
        && o[..1][..0] == [];
    assert o[..5] == o;
    hide Offers, Consider;
    assert Strongest(o[..1]) == Consider(NO_VERDICT, o[0].score, o[0].axis);
    assert Strongest(o[..2]) == Consider(Strongest(o[..1]), o[1].score, o[1].axis);
    assert Strongest(o[..3]) == Consider(Strongest(o[..2]), o[2].score, o[2].axis);
    assert Strongest(o[..4]) == Consider(Strongest(o[..3]), o[3].score, o[3].axis);
  }

  // ---------------------------------------------------------------- the score in figures

  /** The score in figures. The strongest of what speaks for a template counts: Fatal 100, a terminator 90, Error 80, a
      failure cue 70, Warn 30, any other level nothing, its surprise and its novelty as they stand; times 100, 90, 60
      or 30 as the template has under a thousandth, a hundredth, a tenth or more of the lines. The axis named is the
      first of terminator, level, cue, surprise and novelty that speaks so strongly. */
  lemma ScoreInFigures(e: Evidence, count: nat, lines: nat)
    ensures var role, level, cue := if e.terminator then 90 else 0,
                                    if e.level == Some(5) then 100 else if e.level == Some(4) then 80
                                    else if e.level == Some(3) then 30 else 0,
                                    if e.cue then 70 else 0;
            var band := Max(Max(Max(role, level), Max(cue, e.surprise)), e.novelty);
            var share := if lines == 0 then 0.0 else count as real / lines as real;
            && SalienceOf(e, count, lines).score
                == band * (if share < 0.001 then 100 else if share < 0.01 then 90 else if share < 0.1 then 60 else 30)
            && (band > 0 ==>
                  SalienceOf(e, count, lines).axis
                    == if role == band then TerminatorAxis else if level == band then LevelAxis
                       else if cue == band then FailureCueAxis else if e.surprise == band then SurpriseAxis
                       else NoveltyAxis)
  {
    RarityIsShare(count, lines);
    FiveOffers(e);
    hide Rarity, Offers;
  }

  lemma FiveOffers(e: Evidence)
    ensures var role, level, cue := if e.terminator then 90 else 0,
                                    if e.level == Some(5) then 100 else if e.level == Some(4) then 80
                                    else if e.level == Some(3) then 30 else 0,
                                    if e.cue then 70 else 0;
            var band := Max(Max(Max(role, level), Max(cue, e.surprise)), e.novelty);
            && Strongest(Offers(e)).score == band
            && (band > 0 ==>
                  Strongest(Offers(e)).axis
                    == if role == band then TerminatorAxis else if level == band then LevelAxis
                       else if cue == band then FailureCueAxis else if e.surprise == band then SurpriseAxis
                       else NoveltyAxis)
  {
    var o := Offers(e);
    assert o[..5] == o && o[..5][..4] == o[..4] && o[..4][..3] == o[..3] && o[..3][..2] == o[..2]
        && o[..2][..1] == o[..1] && o[..1][..0] == [];
    assert Strongest(o[..0]) == NO_VERDICT;
    assert Strongest(o[..1]) == Consider(NO_VERDICT, o[0].score, o[0].axis);
    assert Strongest(o[..2]) == Consider(Strongest(o[..1]), o[1].score, o[1].axis);
    assert Strongest(o[..3]) == Consider(Strongest(o[..2]), o[2].score, o[2].axis);
    assert Strongest(o[..4]) == Consider(Strongest(o[..3]), o[3].score, o[3].axis);
  }

  lemma RarityIsShare(count: nat, lines: nat)
    ensures var share := if lines == 0 then 0.0 else count as real / lines as real;
            var rarity := if share < 0.001 then 100 else if share < 0.01 then 90 else if share < 0.1 then 60 else 30;
            Rarity(count, lines) == rarity
  {
    if lines > 0 {
      ShareBelow(count, lines, 1000);
      ShareBelow(count, lines, 100);
      ShareBelow(count, lines, 10);
    }
  }

  /** A part is below one n-th of a whole exactly when n such parts do not fill it. */
  lemma ShareBelow(part: nat, whole: nat, n: nat)
    requires whole > 0 && n > 0
    ensures part as real / whole as real < 1.0 / n as real <==> part * n < whole
  {
    var x := part as real / whole as real;
    assert part as real == x * whole as real;
    assert (part * n) as real == x * whole as real * n as real;
    var y := 1.0 / n as real;
    assert 1.0 == y * n as real;
    if x < y {
      BelowTimes(x, y, whole as real * n as real);
    } else {
      AboveTimes(x, y, whole as real * n as real);
    }
  }

  lemma BelowTimes(x: real, y: real, z: real)
    requires x < y && z > 0.0
    ensures x * z < y * z
  {}

  lemma AboveTimes(x: real, y: real, z: real)
    requires x >= y && z > 0.0
    ensures x * z >= y * z
  {}

  /** An edge taken at least twice surprises by how small a part it is of what leaves its source: 90 below two per
      cent, 75 below five, 50 below ten, 25 below twenty. A template seen at least twice is new by how late it was first
      seen: 60 past nine tenths of its window, 40 past three quarters, 20 past the half. */
  lemma BandsInFigures(count: nat, outgoing: nat, firstSeen: nat, lines: nat)
    ensures count < 2 || outgoing == 0 ==> SurpriseBand(count, outgoing) == 0
    ensures count >= 2 && outgoing > 0 ==>
              var share := count as real / outgoing as real;
              SurpriseBand(count, outgoing)
                == if share < 0.02 then 90 else if share < 0.05 then 75 else if share < 0.1 then 50
                   else if share < 0.2 then 25 else 0
    ensures count < 2 || lines == 0 ==> NoveltyBand(firstSeen, lines, count) == 0
    ensures count >= 2 && lines > 0 ==>
              var place := firstSeen as real / lines as real;
              NoveltyBand(firstSeen, lines, count)
                == if place > 0.9 then 60 else if place > 0.75 then 40 else if place > 0.5 then 20 else 0
  {
    if outgoing > 0 {
      ShareBelow(count, outgoing, 50);
      ShareBelow(count, outgoing, 20);
      ShareBelow(count, outgoing, 10);
      ShareBelow(count, outgoing, 5);
    }
    if lines > 0 {
      ShareAbove(firstSeen, lines, 9, 10);
      ShareAbove(firstSeen, lines, 3, 4);
      ShareAbove(firstSeen, lines, 1, 2);
    }
  }

  lemma ShareAbove(part: nat, whole: nat, m: nat, n: nat)
    requires whole > 0 && n > 0
    ensures part as real / whole as real > m as real / n as real <==> part * n > whole * m
  {
    var x, y := part as real / whole as real, m as real / n as real;
    assert part as real == x * whole as real && m as real == y * n as real;
    assert (part * n) as real == x * (whole as real * n as real);
    assert (whole * m) as real == y * (whole as real * n as real);
    if x > y {
      BelowTimes(y, x, whole as real * n as real);
    } else {
      AboveTimes(y, x, whole as real * n as real);
    }
  }
}
