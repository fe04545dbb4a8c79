/** Rebuilding a bracket from flat results: which match fed which side, and an order of each
    round that puts proven feeders beside the matches they fed. */
module Feeders {
  import Intervals

  datatype Round = R64 | R32 | R16 | QF | SF | Final | Other(code: string)
  datatype Side = A | B

  /** One result; teams are compared as sorted lists of names. */
  datatype Row = Row(identity: string, round: Round, teamA: seq<string>, teamB: seq<string>, wonByA: bool)

  /** A side of a match. */
  datatype Place = Place(target: string, side: Side)

  predicate HasPredecessor(r: Round) {
    r != R64 && !r.Other?
  }

  function Predecessor(r: Round): Round
    requires HasPredecessor(r)
  {
    match r
    case R32 => R64
    case R16 => R32
    case QF => R16
    case SF => QF
    case Final => SF
  }

  function Team(row: Row, side: Side): seq<string> {
    if side == A then row.teamA else row.teamB
  }

  function WinningTeam(row: Row): seq<string> {
    if row.wonByA then row.teamA else row.teamB
  }

  ghost predicate UniqueIdentities(rows: seq<Row>) {
    forall i, j :: 0 <= i < j < |rows| ==> rows[i].identity != rows[j].identity
  }

  lemma SameIdentitySameRow(rows: seq<Row>, r: Row, s: Row)
    requires UniqueIdentities(rows) && r in rows && s in rows && r.identity == s.identity
    ensures r == s
  {
  }

  // ---- inference ------------------------------------------------------------

  /** Sides of the first round, and for one tournament of all rounds but the last, are not inferred. */
  predicate Considered(target: Row, onlyFinal: bool) {
    HasPredecessor(target.round) && (onlyFinal ==> target.round == Final)
  }

  /** `source` is a match of the round before, won by the team of that side. */
  predicate Candidate(source: Row, target: Row, side: Side) {
    && HasPredecessor(target.round) && source.round == Predecessor(target.round)
    && WinningTeam(source) == Team(target, side)
  }

  /** `source` is the only candidate for that side. */
  ghost predicate Proven(rows: seq<Row>, onlyFinal: bool, target: Row, side: Side, source: Row) {
    && target in rows && source in rows && Considered(target, onlyFinal) && Candidate(source, target, side)
    && forall s :: s in rows && Candidate(s, target, side) ==> s == source
  }

  /** The only candidate for that place is the match with identity `id`. */
  ghost predicate Claims(rows: seq<Row>, onlyFinal: bool, n: nat, place: Place, id: string)
    requires n <= |rows|
  {
    exists target: Row, source: Row :: Proven(rows, onlyFinal, target, place.side, source)
      && target in rows[..n] && target.identity == place.target && source.identity == id
  }

  /** And no other place claims it. */
  ghost predicate SoleClaim(rows: seq<Row>, onlyFinal: bool, place: Place, id: string) {
    && Claims(rows, onlyFinal, |rows|, place, id)
    && forall other :: Claims(rows, onlyFinal, |rows|, other, id) ==> other == place
  }

  predicate Maps(m: map<Place, string>, place: Place, id: string) {
    place in m && m[place] == id
  }

  /** `feeders` holds exactly the sole claims. */
  ghost predicate Exact(rows: seq<Row>, onlyFinal: bool, feeders: map<Place, string>) {
    forall place, id :: Maps(feeders, place, id) <==> SoleClaim(rows, onlyFinal, place, id)
  }

  function Candidates(rows: seq<Row>, target: Row, side: Side): (found: seq<Row>)
    ensures forall s :: s in found <==> s in rows && Candidate(s, target, side)
  {
    if rows == [] then []
    else (if Candidate(rows[0], target, side) then [rows[0]] else []) + Candidates(rows[1..], target, side)
  }

  lemma {:induction false} CandidatesAreUnique(rows: seq<Row>, target: Row, side: Side)
    requires UniqueIdentities(rows)
    ensures UniqueIdentities(Candidates(rows, target, side))
    decreases |rows|
  {
    if rows != [] {
      CandidatesAreUnique(rows[1..], target, side);
      forall s | s in Candidates(rows[1..], target, side)
        ensures s.identity != rows[0].identity
      {
        assert s in rows[1..];
      }
    }
  }

  lemma OnlyMember(found: seq<Row>, source: Row)
    requires UniqueIdentities(found) && source in found && forall s :: s in found ==> s == source
    ensures |found| == 1 && found[0] == source
  {
    forall i | 0 <= i < |found|
      ensures found[i] == source
    {
      assert found[i] in found;
    }
    var second := if |found| > 1 then found[1] else source;
    assert second.identity == found[0].identity;
  }

  /** One candidate in the list is one candidate altogether. */
  lemma OneCandidate(rows: seq<Row>, onlyFinal: bool, target: Row, side: Side)
    requires UniqueIdentities(rows) && target in rows && Considered(target, onlyFinal)
    requires |Candidates(rows, target, side)| == 1
    ensures Proven(rows, onlyFinal, target, side, Candidates(rows, target, side)[0])
  {
    assert Candidates(rows, target, side)[0] in Candidates(rows, target, side);
  }

  lemma ProvenIsOneCandidate(rows: seq<Row>, onlyFinal: bool, target: Row, side: Side, source: Row)
    requires UniqueIdentities(rows) && Proven(rows, onlyFinal, target, side, source)
    ensures |Candidates(rows, target, side)| == 1 && Candidates(rows, target, side)[0] == source
  {
    CandidatesAreUnique(rows, target, side);
    OnlyMember(Candidates(rows, target, side), source);
  }

  /** `claims` holds exactly the claims of the first `n` rows. */
  ghost predicate Collected(rows: seq<Row>, onlyFinal: bool, n: nat, claims: map<Place, string>)
    requires n <= |rows|
  {
    forall place, id :: Maps(claims, place, id) <==> Claims(rows, onlyFinal, n, place, id)
  }

  /** What one row claims for one of its sides. */
  function Claim(rows: seq<Row>, onlyFinal: bool, target: Row, side: Side): (claim: map<Place, string>)
    ensures claim.Keys <= {Place(target.identity, side)}
  {
    if Considered(target, onlyFinal) && |Candidates(rows, target, side)| == 1
    then map[Place(target.identity, side) := Candidates(rows, target, side)[0].identity]
    else map[]
  }

  /** The row `target` claims the match with identity `id` for its side. */
  ghost predicate RowClaims(rows: seq<Row>, onlyFinal: bool, target: Row, side: Side, id: string) {
    exists source: Row :: Proven(rows, onlyFinal, target, side, source) && source.identity == id
  }

  lemma ClaimIsProven(rows: seq<Row>, onlyFinal: bool, target: Row, side: Side, id: string)
    requires UniqueIdentities(rows) && target in rows
    ensures Maps(Claim(rows, onlyFinal, target, side), Place(target.identity, side), id) <==>
      RowClaims(rows, onlyFinal, target, side, id)
  {
    if Considered(target, onlyFinal) && |Candidates(rows, target, side)| == 1 {
      OneCandidate(rows, onlyFinal, target, side);
    }
    forall source: Row | Proven(rows, onlyFinal, target, side, source)
      ensures |Candidates(rows, target, side)| == 1 && Candidates(rows, target, side)[0] == source
    {
      ProvenIsOneCandidate(rows, onlyFinal, target, side, source);
    }
  }

  lemma ClaimsNext(rows: seq<Row>, onlyFinal: bool, n: nat, place: Place, id: string)
    requires UniqueIdentities(rows) && n < |rows|
    ensures place.target != rows[n].identity ==>
      (Claims(rows, onlyFinal, n + 1, place, id) <==> Claims(rows, onlyFinal, n, place, id))
    ensures place.target == rows[n].identity ==> !Claims(rows, onlyFinal, n, place, id)
    ensures place.target == rows[n].identity ==>
      (Claims(rows, onlyFinal, n + 1, place, id) <==> RowClaims(rows, onlyFinal, rows[n], place.side, id))
  {
    assert rows[..n + 1] == rows[..n] + [rows[n]];
    forall target | target in rows[..n]
      ensures target.identity != rows[n].identity
    {
    }
  }

  lemma CollectNext(rows: seq<Row>, onlyFinal: bool, n: nat, claims: map<Place, string>)
    requires UniqueIdentities(rows) && n < |rows| && Collected(rows, onlyFinal, n, claims)
    ensures Collected(rows, onlyFinal, n + 1,
      claims + Claim(rows, onlyFinal, rows[n], A) + Claim(rows, onlyFinal, rows[n], B))
  {
    forall place, id
      ensures Maps(claims + Claim(rows, onlyFinal, rows[n], A) + Claim(rows, onlyFinal, rows[n], B), place, id) <==>
        Claims(rows, onlyFinal, n + 1, place, id)
    {
      CollectNextAt(rows, onlyFinal, n, claims, place, id);
    }
  }

  /** Adding what one row claims changes the claims of its own places only. */
  lemma MapsSum(claims: map<Place, string>, a: map<Place, string>, b: map<Place, string>, target: string, place: Place,
                id: string)
    requires a.Keys <= {Place(target, A)} && b.Keys <= {Place(target, B)}
    requires place.target == target ==> place !in claims
    ensures Maps(claims + a + b, place, id) <==>
      Maps(if place.target != target then claims else if place.side == A then a else b, place, id)
  {
  }

  lemma CollectNextAt(rows: seq<Row>, onlyFinal: bool, n: nat, claims: map<Place, string>, place: Place, id: string)
    requires UniqueIdentities(rows) && n < |rows| && Collected(rows, onlyFinal, n, claims)
    ensures Maps(claims + Claim(rows, onlyFinal, rows[n], A) + Claim(rows, onlyFinal, rows[n], B), place, id) <==>
      Claims(rows, onlyFinal, n + 1, place, id)
  {
    assert Maps(claims, place, id) <==> Claims(rows, onlyFinal, n, place, id);
    ClaimsNext(rows, onlyFinal, n, place, id);
    if place.target == rows[n].identity {
      NotClaimedYet(rows, onlyFinal, n, claims, place);
      ClaimIsProven(rows, onlyFinal, rows[n], place.side, id);
    }
    MapsSum(claims, Claim(rows, onlyFinal, rows[n], A), Claim(rows, onlyFinal, rows[n], B), rows[n].identity, place,
      id);
  }

  lemma NotClaimedYet(rows: seq<Row>, onlyFinal: bool, n: nat, claims: map<Place, string>, place: Place)
    requires UniqueIdentities(rows) && n < |rows| && Collected(rows, onlyFinal, n, claims)
    requires place.target == rows[n].identity
    ensures place !in claims
  {
    forall id
      ensures !Maps(claims, place, id)
    {
      ClaimsNext(rows, onlyFinal, n, place, id);
    }
    assert place in claims ==> Maps(claims, place, claims[place]);
  }

  /** The claims that no other place makes. */
  function Unshared(claims: map<Place, string>): map<Place, string> {
    map place | place in claims && forall other | other in claims && claims[other] == claims[place] :: other == place
      :: claims[place]
  }

  lemma UnsharedAt(rows: seq<Row>, onlyFinal: bool, claims: map<Place, string>, place: Place, id: string)
    requires Collected(rows, onlyFinal, |rows|, claims)
    ensures Maps(Unshared(claims), place, id) <==> SoleClaim(rows, onlyFinal, place, id)
  {
    assert Maps(claims, place, id) <==> Claims(rows, onlyFinal, |rows|, place, id);
    if Maps(Unshared(claims), place, id) {
      forall other | Claims(rows, onlyFinal, |rows|, other, id)
        ensures other == place
      {
        assert Maps(claims, other, id);
      }
    }
    if SoleClaim(rows, onlyFinal, place, id) {
      forall other | other in claims && claims[other] == claims[place]
        ensures other == place
      {
        assert Maps(claims, other, id);
      }
    }
  }

  lemma UnsharedIsExact(rows: seq<Row>, onlyFinal: bool, claims: map<Place, string>)
    requires Collected(rows, onlyFinal, |rows|, claims)
    ensures Exact(rows, onlyFinal, Unshared(claims))
  {
    forall place, id
      ensures Maps(Unshared(claims), place, id) <==> SoleClaim(rows, onlyFinal, place, id)
    {
      UnsharedAt(rows, onlyFinal, claims, place, id);
    }
  }

  /** Infer which match fed which side. A place is filled exactly if one match of the round before
      is the only one its team won, and no other place claims that match. */
  method InferWinnerFeeders(rows: seq<Row>, onlyFinal: bool) returns (feeders: map<Place, string>)
    requires UniqueIdentities(rows)
    ensures Exact(rows, onlyFinal, feeders)
  {
    var claims: map<Place, string> := map[];
    for i := 0 to |rows|
      invariant Collected(rows, onlyFinal, i, claims)
    {
      CollectNext(rows, onlyFinal, i, claims);
      claims := claims + Claim(rows, onlyFinal, rows[i], A) + Claim(rows, onlyFinal, rows[i], B);
    }
    UnsharedIsExact(rows, onlyFinal, claims);
    feeders := Unshared(claims);
  }

  /** No match feeds two places. */
  lemma FeedersAreInjective(rows: seq<Row>, onlyFinal: bool, feeders: map<Place, string>, p: Place, q: Place)
    requires Exact(rows, onlyFinal, feeders) && p in feeders && q in feeders && feeders[p] == feeders[q]
    ensures p == q
  {
    assert Maps(feeders, p, feeders[p]) && Maps(feeders, q, feeders[p]);
  }

  lemma InferredIsInjective(rows: seq<Row>, onlyFinal: bool, feeders: map<Place, string>)
    requires Exact(rows, onlyFinal, feeders)
    ensures Injective(feeders)
  {
    forall p, q | p in feeders && q in feeders && feeders[p] == feeders[q]
      ensures p == q
    {
      FeedersAreInjective(rows, onlyFinal, feeders, p, q);
    }
  }

  lemma SameClaims(rows: seq<Row>, shuffled: seq<Row>, onlyFinal: bool, place: Place, id: string)
    requires forall r :: r in rows <==> r in shuffled
    requires Claims(rows, onlyFinal, |rows|, place, id)
    ensures Claims(shuffled, onlyFinal, |shuffled|, place, id)
  {
    var target: Row, source: Row :| Proven(rows, onlyFinal, target, place.side, source)
      && target in rows[..|rows|] && target.identity == place.target && source.identity == id;
    assert shuffled[..|shuffled|] == shuffled;
    assert Proven(shuffled, onlyFinal, target, place.side, source);
  }

  /** The order of the rows makes no difference. */
  lemma OrderDoesNotMatter(rows: seq<Row>, shuffled: seq<Row>, onlyFinal: bool, feeders: map<Place, string>,
                           other: map<Place, string>)
    requires forall r :: r in rows <==> r in shuffled
    requires Exact(rows, onlyFinal, feeders) && Exact(shuffled, onlyFinal, other)
    ensures feeders == other
  {
    forall place, id
      ensures Maps(feeders, place, id) <==> Maps(other, place, id)
    {
      if Maps(feeders, place, id) {
        SameSoleClaims(rows, shuffled, onlyFinal, place, id);
      }
      if Maps(other, place, id) {
        SameSoleClaims(shuffled, rows, onlyFinal, place, id);
      }
    }
    forall place
      ensures place in feeders <==> place in other
      ensures place in feeders ==> feeders[place] == other[place]
    {
      assert place in feeders ==> Maps(feeders, place, feeders[place]) && Maps(other, place, feeders[place]);
      assert place in other ==> Maps(other, place, other[place]) && Maps(feeders, place, other[place]);
    }
    assert feeders.Keys == other.Keys;
  }

  lemma SameSoleClaims(rows: seq<Row>, shuffled: seq<Row>, onlyFinal: bool, place: Place, id: string)
    requires (forall r :: r in rows <==> r in shuffled) && SoleClaim(rows, onlyFinal, place, id)
    ensures SoleClaim(shuffled, onlyFinal, place, id)
  {
    SameClaims(rows, shuffled, onlyFinal, place, id);
    forall other | Claims(shuffled, onlyFinal, |shuffled|, other, id)
      ensures other == place
    {
      SameClaims(shuffled, rows, onlyFinal, other, id);
    }
  }

  // ---- the inference on the fields of the rows -----------------------------------

  /** The rounds that follow each other. */
  predicate RoundBefore(earlier: Round, later: Round) {
    || (earlier == R64 && later == R32)
    || (earlier == R32 && later == R16)
    || (earlier == R16 && later == QF)
    || (earlier == QF && later == SF)
    || (earlier == SF && later == Final)
  }

  /** The team that won `source` plays on that side of `target`, a round later. */
  predicate Advances(source: Row, target: Row, side: Side) {
    && RoundBefore(source.round, target.round)
    && (source.wonByA && side == A ==> source.teamA == target.teamA)
    && (source.wonByA && side == B ==> source.teamA == target.teamB)
    && (!source.wonByA && side == A ==> source.teamB == target.teamA)
    && (!source.wonByA && side == B ==> source.teamB == target.teamB)
  }

  /** No other match was won by the team on that side of `target`. */
  ghost predicate OnlyWay(rows: seq<Row>, onlyFinal: bool, source: Row, target: Row, side: Side) {
    && Advances(source, target, side) && (onlyFinal ==> target.round == Final)
    && forall s :: s in rows && Advances(s, target, side) ==> s == source
  }

  lemma CandidateAdvances(source: Row, target: Row, side: Side)
    ensures Candidate(source, target, side) <==> Advances(source, target, side)
  {
  }

  lemma ProvenInPlainTerms(rows: seq<Row>, onlyFinal: bool, target: Row, side: Side, source: Row)
    ensures Proven(rows, onlyFinal, target, side, source) <==>
      target in rows && source in rows && OnlyWay(rows, onlyFinal, source, target, side)
  {
    CandidateAdvances(source, target, side);
    forall s
      ensures Candidate(s, target, side) <==> Advances(s, target, side)
    {
      CandidateAdvances(s, target, side);
    }
  }

  lemma ClaimInPlainTerms(rows: seq<Row>, onlyFinal: bool, source: Row, target: Row, side: Side)
    requires UniqueIdentities(rows) && source in rows && target in rows
    ensures Claims(rows, onlyFinal, |rows|, Place(target.identity, side), source.identity) <==>
      OnlyWay(rows, onlyFinal, source, target, side)
  {
    assert rows[..|rows|] == rows;
    var place, id := Place(target.identity, side), source.identity;
    ProvenInPlainTerms(rows, onlyFinal, target, side, source);
    if Claims(rows, onlyFinal, |rows|, place, id) {
      var t: Row, s: Row :| Proven(rows, onlyFinal, t, side, s) && t in rows[..|rows|]
        && t.identity == place.target && s.identity == id;
      SameIdentitySameRow(rows, t, target);
      SameIdentitySameRow(rows, s, source);
    }
  }

  /** A feeder was won by the very team that plays on the side it feeds, in the round before. */
  lemma FeederWasWon(rows: seq<Row>, onlyFinal: bool, feeders: map<Place, string>, s: Row, t: Row, side: Side)
    requires UniqueIdentities(rows) && Exact(rows, onlyFinal, feeders) && s in rows && t in rows
    requires Place(t.identity, side) in feeders && feeders[Place(t.identity, side)] == s.identity
    ensures s.wonByA ==> s.teamA == if side == A then t.teamA else t.teamB
    ensures !s.wonByA ==> s.teamB == if side == A then t.teamA else t.teamB
    ensures RoundBefore(s.round, t.round) && (onlyFinal ==> t.round == Final)
  {
    assert Maps(feeders, Place(t.identity, side), s.identity);
    ClaimInPlainTerms(rows, onlyFinal, s, t, side);
  }

  /** `t` and `side` are the one place whose team can only have come from `s`. */
  ghost predicate OnlyGoal(rows: seq<Row>, onlyFinal: bool, s: Row, t: Row, side: Side) {
    && OnlyWay(rows, onlyFinal, s, t, side)
    && forall r, other :: r in rows && OnlyWay(rows, onlyFinal, s, r, other) ==> r == t && other == side
  }

  /** `s` feeds a side exactly if it is the only match of the round before that the team there won, and
      the same is true of no other side. */
  lemma FeedersInPlainTerms(rows: seq<Row>, onlyFinal: bool, feeders: map<Place, string>, s: Row, t: Row, side: Side)
    requires UniqueIdentities(rows) && Exact(rows, onlyFinal, feeders) && s in rows && t in rows
    ensures (Place(t.identity, side) in feeders && feeders[Place(t.identity, side)] == s.identity) <==>
      OnlyGoal(rows, onlyFinal, s, t, side)
  {
    var place := Place(t.identity, side);
    assert Maps(feeders, place, s.identity) <==> SoleClaim(rows, onlyFinal, place, s.identity);
    ClaimInPlainTerms(rows, onlyFinal, s, t, side);
    if SoleClaim(rows, onlyFinal, place, s.identity) {
      forall r, other | r in rows && OnlyWay(rows, onlyFinal, s, r, other)
        ensures r == t && other == side
      {
        ClaimInPlainTerms(rows, onlyFinal, s, r, other);
        assert Place(r.identity, other) == place;
        SameIdentitySameRow(rows, r, t);
      }
    }
    if OnlyGoal(rows, onlyFinal, s, t, side) {
      forall other | Claims(rows, onlyFinal, |rows|, other, s.identity)
        ensures other == place
      {
        var r: Row, q: Row :| Proven(rows, onlyFinal, r, other.side, q) && r in rows[..|rows|]
          && r.identity == other.target && q.identity == s.identity;
        ClaimInPlainTerms(rows, onlyFinal, s, r, other.side);
      }
    }
  }

  /** Only sides of listed matches are fed, and only by listed matches. */
  lemma FeedersAreListed(rows: seq<Row>, onlyFinal: bool, feeders: map<Place, string>, place: Place)
    returns (s: Row, t: Row)
    requires Exact(rows, onlyFinal, feeders) && place in feeders
    ensures s in rows && t in rows && t.identity == place.target && s.identity == feeders[place]
  {
    assert Maps(feeders, place, feeders[place]);
    t, s :| Proven(rows, onlyFinal, t, place.side, s)
      && t in rows[..|rows|] && t.identity == place.target && s.identity == feeders[place];
  }

  // ---- order ----------------------------------------------------------------

  predicate Member(identity: string, rows: seq<Row>) {
    exists r :: r in rows && r.identity == identity
  }

  /** The feeders of `targets`, side by side, each once. */
  function DesiredIds(targets: seq<Row>, feeders: map<Place, string>): (ids: seq<string>) {
    if targets == [] then []
    else
      var last := targets[|targets| - 1];
      var ids := DesiredIds(targets[..|targets| - 1], feeders);
      Wanted(Wanted(ids, feeders, Place(last.identity, A)), feeders, Place(last.identity, B))
  }

  function Wanted(ids: seq<string>, feeders: map<Place, string>, place: Place): seq<string> {
    if place in feeders && feeders[place] !in ids then ids + [feeders[place]] else ids
  }

  lemma {:induction false} DesiredOnce(targets: seq<Row>, feeders: map<Place, string>)
    ensures Intervals.Distinct(DesiredIds(targets, feeders))
    decreases |targets|
  {
    if targets != [] {
      DesiredOnce(targets[..|targets| - 1], feeders);
    }
  }

  /** The rows with the given identities, in their order; identities of no row are skipped. */
  function Picked(ids: seq<string>, rows: seq<Row>): seq<Row> {
    if ids == [] then []
    else (if Member(ids[0], rows) then [Find(ids[0], rows)] else []) + Picked(ids[1..], rows)
  }

  function Find(identity: string, rows: seq<Row>): (row: Row)
    requires Member(identity, rows)
    ensures row in rows && row.identity == identity
  {
    if rows[0].identity == identity then rows[0] else Find(identity, rows[1..])
  }

  /** The rows with other identities, in their order. */
  function Rest(ids: seq<string>, rows: seq<Row>): seq<Row> {
    if rows == [] then []
    else (if rows[0].identity in ids then [] else [rows[0]]) + Rest(ids, rows[1..])
  }

  lemma {:induction false} PickedMembers(ids: seq<string>, rows: seq<Row>)
    requires Intervals.Distinct(ids) && UniqueIdentities(rows)
    ensures UniqueIdentities(Picked(ids, rows))
    ensures forall r :: r in Picked(ids, rows) <==> r in rows && r.identity in ids
    decreases |ids|
  {
    if ids != [] {
      PickedMembers(ids[1..], rows);
      forall r | r in rows && r.identity == ids[0]
        ensures Member(ids[0], rows) && r == Find(ids[0], rows)
      {
        SameIdentitySameRow(rows, r, Find(ids[0], rows));
      }
      forall r | r in Picked(ids[1..], rows)
        ensures r.identity != ids[0]
      {
        var i :| 0 <= i < |ids[1..]| && ids[1..][i] == r.identity;
        assert ids[i + 1] == r.identity;
      }
    }
  }

  lemma {:induction false} RestMembers(ids: seq<string>, rows: seq<Row>)
    requires UniqueIdentities(rows)
    ensures UniqueIdentities(Rest(ids, rows))
    ensures forall r :: r in Rest(ids, rows) <==> r in rows && r.identity !in ids
    decreases |rows|
  {
    if rows != [] {
      RestMembers(ids, rows[1..]);
      forall r | r in Rest(ids, rows[1..])
        ensures r.identity != rows[0].identity
      {
        assert r in rows[1..];
      }
    }
  }

  /** One round put beside the next: proven feeders first, in the order of the sides they fed. */
  function Beside(targets: seq<Row>, rows: seq<Row>, feeders: map<Place, string>): seq<Row> {
    Picked(DesiredIds(targets, feeders), rows) + Rest(DesiredIds(targets, feeders), rows)
  }

  /** Ordering a round neither loses a match nor lists one twice. */
  lemma BesideIsPermutation(targets: seq<Row>, rows: seq<Row>, feeders: map<Place, string>)
    requires UniqueIdentities(rows)
    ensures UniqueIdentities(Beside(targets, rows, feeders))
    ensures forall r :: r in Beside(targets, rows, feeders) <==> r in rows
  {
    var ids := DesiredIds(targets, feeders);
    DesiredOnce(targets, feeders);
    PickedMembers(ids, rows);
    RestMembers(ids, rows);
    var picked, rest := Picked(ids, rows), Rest(ids, rows);
    forall i, j | 0 <= i < |picked| && 0 <= j < |rest|
      ensures picked[i].identity != rest[j].identity
    {
      assert picked[i] in picked && rest[j] in rest;
    }
  }

  ghost predicate Injective(feeders: map<Place, string>) {
    forall p, q :: p in feeders && q in feeders && feeders[p] == feeders[q] ==> p == q
  }

  /** Every side of every target has a feeder. */
  ghost predicate AllProven(targets: seq<Row>, feeders: map<Place, string>) {
    forall t, side :: t in targets ==> Place(t.identity, side) in feeders
  }

  /** The identities at 2i and 2i + 1 are the feeders of the i-th target. */
  ghost predicate InPairs(ids: seq<string>, targets: seq<Row>, feeders: map<Place, string>) {
    && |ids| == 2 * |targets|
    && forall i :: 0 <= i < |targets| ==>
      FeedsAt(feeders, targets[i].identity, ids[2 * i], ids[2 * i + 1])
  }

  predicate FeedsAt(feeders: map<Place, string>, target: string, a: string, b: string) {
    Maps(feeders, Place(target, A), a) && Maps(feeders, Place(target, B), b)
  }

  lemma PairsDiffer(ids: seq<string>, targets: seq<Row>, feeders: map<Place, string>, place: Place)
    requires InPairs(ids, targets, feeders) && place in feeders && Injective(feeders)
    requires forall t :: t in targets ==> t.identity != place.target
    ensures feeders[place] !in ids
  {
    forall k | 0 <= k < |ids|
      ensures ids[k] != feeders[place]
    {
      assert k == 2 * (k / 2) || k == 2 * (k / 2) + 1;
      assert FeedsAt(feeders, targets[k / 2].identity, ids[2 * (k / 2)], ids[2 * (k / 2) + 1]);
      assert targets[k / 2] in targets;
    }
  }

  lemma PairsGrow(ids: seq<string>, targets: seq<Row>, feeders: map<Place, string>, last: Row, a: string, b: string)
    requires InPairs(ids, targets, feeders) && FeedsAt(feeders, last.identity, a, b)
    ensures InPairs(ids + [a] + [b], targets + [last], feeders)
  {
    var ids', targets' := ids + [a] + [b], targets + [last];
    forall i | 0 <= i < |targets'|
      ensures FeedsAt(feeders, targets'[i].identity, ids'[2 * i], ids'[2 * i + 1])
    {
      if i < |targets| {
        assert FeedsAt(feeders, targets[i].identity, ids[2 * i], ids[2 * i + 1]);
      }
    }
  }

  lemma {:induction false} DesiredPairs(targets: seq<Row>, feeders: map<Place, string>)
    requires AllProven(targets, feeders) && Injective(feeders) && UniqueIdentities(targets)
    ensures InPairs(DesiredIds(targets, feeders), targets, feeders)
    decreases |targets|
  {
    if targets != [] {
      var before, last := targets[..|targets| - 1], targets[|targets| - 1];
      assert targets == before + [last] && last in targets;
      assert forall t :: t in before ==> t in targets && t.identity != last.identity;
      DesiredPairs(before, feeders);
      var ids := DesiredIds(before, feeders);
      PairsDiffer(ids, before, feeders, Place(last.identity, A));
      PairsDiffer(ids, before, feeders, Place(last.identity, B));
      DesiredNext(targets, feeders, ids, last.identity);
      PairsGrow(ids, before, feeders, last, feeders[Place(last.identity, A)], feeders[Place(last.identity, B)]);
    }
  }

  lemma DesiredNext(targets: seq<Row>, feeders: map<Place, string>, ids: seq<string>, last: string)
    requires targets != [] && targets[|targets| - 1].identity == last
    requires ids == DesiredIds(targets[..|targets| - 1], feeders)
    requires Place(last, A) in feeders && Place(last, B) in feeders && Injective(feeders)
    requires feeders[Place(last, A)] !in ids && feeders[Place(last, B)] !in ids
    ensures DesiredIds(targets, feeders) == ids + [feeders[Place(last, A)]] + [feeders[Place(last, B)]]
  {
  }

  lemma {:induction false} PickedInOrder(ids: seq<string>, rows: seq<Row>)
    requires forall k :: 0 <= k < |ids| ==> Member(ids[k], rows)
    ensures |Picked(ids, rows)| == |ids| && forall k :: 0 <= k < |ids| ==> Picked(ids, rows)[k].identity == ids[k]
    decreases |ids|
  {
    if ids != [] {
      assert forall k :: 0 <= k < |ids| - 1 ==> ids[1..][k] == ids[k + 1];
      PickedInOrder(ids[1..], rows);
    }
  }

  /** Every feeder of a target is one of `rows`. */
  ghost predicate FedFrom(targets: seq<Row>, rows: seq<Row>, feeders: map<Place, string>) {
    forall t, side :: t in targets && Place(t.identity, side) in feeders ==>
      Member(feeders[Place(t.identity, side)], rows)
  }

  /** Inferred feeders are matches of the round before. */
  lemma InferredAreThere(all: seq<Row>, onlyFinal: bool, feeders: map<Place, string>, targets: seq<Row>, rows: seq<Row>)
    requires UniqueIdentities(all) && Exact(all, onlyFinal, feeders) && forall t :: t in targets ==> t in all
    requires forall t, r :: t in targets && r in all && HasPredecessor(t.round) && r.round == Predecessor(t.round) ==>
      r in rows
    ensures FedFrom(targets, rows, feeders)
  {
    forall t, side | t in targets && Place(t.identity, side) in feeders
      ensures Member(feeders[Place(t.identity, side)], rows)
    {
      var place := Place(t.identity, side);
      assert Maps(feeders, place, feeders[place]);
      assert Claims(all, onlyFinal, |all|, place, feeders[place]);
      var target: Row, source: Row :| Proven(all, onlyFinal, target, side, source)
        && target in all[..|all|] && target.identity == t.identity && source.identity == feeders[place];
      SameIdentitySameRow(all, t, target);
    }
  }

  /** The feeders of the i-th match of `targets` stand at 2i and 2i + 1 of `earlier`. */
  ghost predicate StandBeside(targets: seq<Row>, earlier: seq<Row>, feeders: map<Place, string>) {
    && |earlier| >= 2 * |targets|
    && forall i :: 0 <= i < |targets| ==>
      FeedsAt(feeders, targets[i].identity, earlier[2 * i].identity, earlier[2 * i + 1].identity)
  }

  lemma PairsAreMembers(ids: seq<string>, targets: seq<Row>, rows: seq<Row>, feeders: map<Place, string>, k: nat)
    requires InPairs(ids, targets, feeders) && FedFrom(targets, rows, feeders) && k < |ids|
    ensures Member(ids[k], rows)
  {
    assert k == 2 * (k / 2) || k == 2 * (k / 2) + 1;
    assert FeedsAt(feeders, targets[k / 2].identity, ids[2 * (k / 2)], ids[2 * (k / 2) + 1]);
    assert targets[k / 2] in targets;
  }

  lemma PairsStandBeside(ids: seq<string>, targets: seq<Row>, earlier: seq<Row>, feeders: map<Place, string>)
    requires InPairs(ids, targets, feeders) && |earlier| >= |ids|
    requires forall k :: 0 <= k < |ids| ==> earlier[k].identity == ids[k]
    ensures StandBeside(targets, earlier, feeders)
  {
    forall i | 0 <= i < |targets|
      ensures FeedsAt(feeders, targets[i].identity, earlier[2 * i].identity, earlier[2 * i + 1].identity)
    {
      assert FeedsAt(feeders, targets[i].identity, ids[2 * i], ids[2 * i + 1]);
    }
  }

  /** When every side is proven, the feeders of the i-th match are at 2i and 2i + 1. */
  lemma FeedersAreBeside(targets: seq<Row>, rows: seq<Row>, feeders: map<Place, string>)
    requires AllProven(targets, feeders) && Injective(feeders) && UniqueIdentities(targets)
    requires FedFrom(targets, rows, feeders)
    ensures StandBeside(targets, Beside(targets, rows, feeders), feeders)
  {
    var ids := DesiredIds(targets, feeders);
    DesiredPairs(targets, feeders);
    forall k | 0 <= k < |ids|
      ensures Member(ids[k], rows)
    {
      PairsAreMembers(ids, targets, rows, feeders, k);
    }
    PickedInOrder(ids, rows);
    PairsStandBeside(ids, targets, Beside(targets, rows, feeders), feeders);
  }

  // ---- the order on positions ----------------------------------------------------

  /** `r` feeds that side of `t`. */
  predicate Feeds(feeders: map<Place, string>, r: Row, t: Row, side: Side) {
    Place(t.identity, side) in feeders && feeders[Place(t.identity, side)] == r.identity
  }

  ghost predicate FeedsSome(feeders: map<Place, string>, r: Row, targets: seq<Row>) {
    exists t, side :: t in targets && Feeds(feeders, r, t, side)
  }

  lemma FeedsNext(feeders: map<Place, string>, r: Row, targets: seq<Row>, last: Row)
    ensures FeedsSome(feeders, r, targets + [last]) <==>
      FeedsSome(feeders, r, targets) || Feeds(feeders, r, last, A) || Feeds(feeders, r, last, B)
  {
    forall t, side | t in targets && Feeds(feeders, r, t, side)
      ensures FeedsSome(feeders, r, targets + [last])
    {
      assert t in targets + [last];
    }
    assert last in targets + [last];
    if FeedsSome(feeders, r, targets + [last]) {
      var t, side :| t in targets + [last] && Feeds(feeders, r, t, side);
      assert t in targets || t == last;
      assert side == A || side == B;
    }
  }

  lemma {:induction false} DesiredAre(targets: seq<Row>, feeders: map<Place, string>, r: Row)
    ensures r.identity in DesiredIds(targets, feeders) <==> FeedsSome(feeders, r, targets)
    decreases |targets|
  {
    if targets != [] {
      var before, last := targets[..|targets| - 1], targets[|targets| - 1];
      assert targets == before + [last];
      DesiredAre(before, feeders, r);
      assert FeedsSome(feeders, r, targets) <==>
        FeedsSome(feeders, r, before) || Feeds(feeders, r, last, A) || Feeds(feeders, r, last, B) by
      {
        FeedsNext(feeders, r, before, last);
      }
    }
  }

  lemma {:induction false} DesiredGrow(targets: seq<Row>, feeders: map<Place, string>, n: nat)
    requires n <= |targets|
    ensures DesiredIds(targets[..n], feeders) <= DesiredIds(targets, feeders)
    decreases |targets|
  {
    if n == |targets| {
      assert targets[..n] == targets;
    } else {
      assert targets[..|targets| - 1][..n] == targets[..n];
      DesiredGrow(targets[..|targets| - 1], feeders, n);
    }
  }

  /** Feeders are asked for in the order of the sides they feed. */
  lemma DesiredInTurn(targets: seq<Row>, feeders: map<Place, string>, k: nat, s: Side, l: nat, r: Side, x: Row, y: Row)
    returns (p: seq<string>)
    requires Injective(feeders) && UniqueIdentities(targets) && k < |targets| && l < |targets|
    requires k < l || (k == l && s == A && r == B)
    requires Feeds(feeders, x, targets[k], s) && Feeds(feeders, y, targets[l], r)
    ensures p <= DesiredIds(targets, feeders) && x.identity in p && y.identity !in p
  {
    var before := targets[..l];
    DesiredAre(before, feeders, x);
    DesiredAre(before, feeders, y);
    forall t, side | t in before
      ensures !Feeds(feeders, y, t, side)
    {
      assert t.identity != targets[l].identity;
    }
    assert y.identity !in DesiredIds(before, feeders);
    if k < l {
      p := DesiredIds(before, feeders);
      assert targets[k] in before;
      DesiredGrow(targets, feeders, l);
    } else {
      p := Wanted(DesiredIds(before, feeders), feeders, Place(targets[l].identity, A));
      assert targets[..l + 1][..l] == before;
      assert p <= DesiredIds(targets[..l + 1], feeders);
      DesiredGrow(targets, feeders, l + 1);
    }
  }

  lemma {:induction false} PickedFrom(ids: seq<string>, rows: seq<Row>, i: nat) returns (a: nat)
    requires i < |Picked(ids, rows)|
    ensures a < |ids| && ids[a] == Picked(ids, rows)[i].identity
    decreases |ids|
  {
    var first := if Member(ids[0], rows) then 1 else 0;
    if i < first {
      a := 0;
    } else {
      a := PickedFrom(ids[1..], rows, i - first);
      a := a + 1;
    }
  }

  lemma {:induction false} PickedInTurn(ids: seq<string>, rows: seq<Row>, i: nat, j: nat) returns (a: nat, b: nat)
    requires i < j < |Picked(ids, rows)|
    ensures a < b < |ids| && ids[a] == Picked(ids, rows)[i].identity && ids[b] == Picked(ids, rows)[j].identity
    decreases |ids|
  {
    var first := if Member(ids[0], rows) then 1 else 0;
    if i < first {
      a := 0;
      b := PickedFrom(ids[1..], rows, j - first);
    } else {
      a, b := PickedInTurn(ids[1..], rows, i - first, j - first);
      a := a + 1;
    }
    b := b + 1;
  }

  lemma {:induction false} RestFrom(ids: seq<string>, rows: seq<Row>, i: nat) returns (a: nat)
    requires i < |Rest(ids, rows)|
    ensures a < |rows| && rows[a] == Rest(ids, rows)[i]
    decreases |rows|
  {
    var first := if rows[0].identity in ids then 0 else 1;
    if i < first {
      a := 0;
    } else {
      a := RestFrom(ids, rows[1..], i - first);
      a := a + 1;
    }
  }

  lemma {:induction false} RestInTurn(ids: seq<string>, rows: seq<Row>, i: nat, j: nat) returns (a: nat, b: nat)
    requires i < j < |Rest(ids, rows)|
    ensures a < b < |rows| && rows[a] == Rest(ids, rows)[i] && rows[b] == Rest(ids, rows)[j]
    decreases |rows|
  {
    var first := if rows[0].identity in ids then 0 else 1;
    if i < first {
      a := 0;
      b := RestFrom(ids, rows[1..], j - first);
    } else {
      a, b := RestInTurn(ids, rows[1..], i - first, j - first);
      a := a + 1;
    }
    b := b + 1;
  }

  /** The feeders of the round make up the first part. */
  lemma FeedersFirst(targets: seq<Row>, rows: seq<Row>, feeders: map<Place, string>, i: nat)
    requires UniqueIdentities(rows) && i < |Beside(targets, rows, feeders)|
    ensures FeedsSome(feeders, Beside(targets, rows, feeders)[i], targets) <==>
      i < |Picked(DesiredIds(targets, feeders), rows)|
  {
    var ids, beside := DesiredIds(targets, feeders), Beside(targets, rows, feeders);
    var picked, rest := Picked(ids, rows), Rest(ids, rows);
    DesiredOnce(targets, feeders);
    PickedMembers(ids, rows);
    RestMembers(ids, rows);
    DesiredAre(targets, feeders, beside[i]);
    if i < |picked| {
      assert beside[i] == picked[i] && picked[i] in picked;
    } else {
      assert beside[i] == rest[i - |picked|] && rest[i - |picked|] in rest;
    }
  }

  lemma FeedersComeFirst(targets: seq<Row>, rows: seq<Row>, feeders: map<Place, string>, i: nat, j: nat)
    requires UniqueIdentities(rows) && i < j < |Beside(targets, rows, feeders)|
    requires FeedsSome(feeders, Beside(targets, rows, feeders)[j], targets)
    ensures FeedsSome(feeders, Beside(targets, rows, feeders)[i], targets)
  {
    FeedersFirst(targets, rows, feeders, i);
    FeedersFirst(targets, rows, feeders, j);
  }

  lemma PrefixHolds(ids: seq<string>, p: seq<string>)
    requires Intervals.Distinct(ids) && p <= ids
    ensures forall a :: 0 <= a < |ids| ==> (ids[a] in p <==> a < |p|)
  {
    forall a | 0 <= a < |ids|
      ensures ids[a] in p <==> a < |p|
    {
      assert a < |p| ==> p[a] == ids[a];
    }
  }

  lemma PickedBefore(ids: seq<string>, p: seq<string>, rows: seq<Row>, i: nat, j: nat)
    requires Intervals.Distinct(ids) && p <= ids && i < |Picked(ids, rows)| && j < |Picked(ids, rows)|
    requires Picked(ids, rows)[i].identity in p && Picked(ids, rows)[j].identity !in p
    ensures i < j
  {
    PrefixHolds(ids, p);
    if j < i {
      var b, a := PickedInTurn(ids, rows, j, i);
    }
  }

  /** Of two feeders, the one that feeds the earlier side comes first. */
  lemma FeedersInTurn(targets: seq<Row>, rows: seq<Row>, feeders: map<Place, string>, i: nat, j: nat, k: nat, s: Side,
                      l: nat, r: Side)
    requires UniqueIdentities(rows) && UniqueIdentities(targets) && Injective(feeders)
    requires i < |Beside(targets, rows, feeders)| && j < |Beside(targets, rows, feeders)|
    requires k < |targets| && Feeds(feeders, Beside(targets, rows, feeders)[i], targets[k], s)
    requires l < |targets| && Feeds(feeders, Beside(targets, rows, feeders)[j], targets[l], r)
    requires k < l || (k == l && s == A && r == B)
    ensures i < j
  {
    var ids, beside := DesiredIds(targets, feeders), Beside(targets, rows, feeders);
    assert targets[k] in targets && targets[l] in targets;
    var p := DesiredInTurn(targets, feeders, k, s, l, r, beside[i], beside[j]);
    DesiredOnce(targets, feeders);
    FeedersFirst(targets, rows, feeders, i);
    FeedersFirst(targets, rows, feeders, j);
    PickedBefore(ids, p, rows, i, j);
  }

  /** Matches that feed no side of the round keep the order they had. */
  lemma OthersInTurn(targets: seq<Row>, rows: seq<Row>, feeders: map<Place, string>, i: nat, j: nat)
    returns (a: nat, b: nat)
    requires UniqueIdentities(rows) && i < j < |Beside(targets, rows, feeders)|
    requires !FeedsSome(feeders, Beside(targets, rows, feeders)[i], targets)
    ensures a < b < |rows| && rows[a] == Beside(targets, rows, feeders)[i]
    ensures rows[b] == Beside(targets, rows, feeders)[j]
  {
    var ids := DesiredIds(targets, feeders);
    FeedersFirst(targets, rows, feeders, i);
    a, b := RestInTurn(ids, rows, i - |Picked(ids, rows)|, j - |Picked(ids, rows)|);
  }

  /** Rounds are listed from the first to the last, each once. */
  ghost predicate InPlayOrder(codes: seq<Round>) {
    && (forall i, j :: 0 <= i < j < |codes| ==> codes[i] != codes[j])
    && forall i, j :: 0 <= i < |codes| && 0 <= j < |codes| && HasPredecessor(codes[j]) ==>
      Predecessor(codes[j]) == codes[i] ==> i < j
  }

  /** The round before the `k`-th is ordered beside it, from the order `start` had. */
  ghost predicate OrderedAt(codes: seq<Round>, start: map<Round, seq<Row>>, ordered: map<Round, seq<Row>>,
                            feeders: map<Place, string>, k: nat)
    requires k < |codes| && start.Keys == ordered.Keys
  {
    codes[k] in ordered && HasPredecessor(codes[k]) && Predecessor(codes[k]) in ordered ==>
      ordered[Predecessor(codes[k])] == Beside(ordered[codes[k]], start[Predecessor(codes[k])], feeders)
  }

  /** No round from the `k`-th on has `c` as the round before it. */
  ghost predicate UntouchedFrom(codes: seq<Round>, k: nat, c: Round) {
    forall j :: k <= j < |codes| ==> !(HasPredecessor(codes[j]) && Predecessor(codes[j]) == c)
  }

  /** Ordering the round before the `k`-th leaves the rounds from the `k`-th on, and those
      before them, as they are. */
  lemma OrderStep(codes: seq<Round>, start: map<Round, seq<Row>>, ordered: map<Round, seq<Row>>,
                  feeders: map<Place, string>,
                  k: nat, i: nat, j: nat)
    requires InPlayOrder(codes) && start.Keys == ordered.Keys && i < |codes| && k <= j < |codes| && codes[k] in ordered
    requires codes[j] in ordered
    requires HasPredecessor(codes[k]) && Predecessor(codes[k]) == codes[i] && codes[i] in ordered
    requires ordered[codes[i]] == start[codes[i]] && (k < j ==> OrderedAt(codes, start, ordered, feeders, j))
    ensures var beside := Beside(ordered[codes[k]], ordered[codes[i]], feeders);
      OrderedAt(codes, start, ordered[codes[i] := beside], feeders, j)
  {
    assert i < k;
    if k < j {
      assert codes[j] != codes[k] && codes[j] != codes[i];
    }
  }

  method OrderOneRound(codes: seq<Round>, ghost start: map<Round, seq<Row>>, before: map<Round, seq<Row>>,
                       feeders: map<Place, string>, k: nat)
    returns (ordered: map<Round, seq<Row>>)
    requires InPlayOrder(codes) && (forall c :: c in codes <==> c in start) && k < |codes| && before.Keys == start.Keys
    requires forall j :: k < j < |codes| ==> OrderedAt(codes, start, before, feeders, j)
    requires forall c :: c in start && UntouchedFrom(codes, k + 1, c) ==> before[c] == start[c]
    ensures ordered.Keys == start.Keys
    ensures forall j :: k <= j < |codes| ==> OrderedAt(codes, start, ordered, feeders, j)
    ensures forall c :: c in start && UntouchedFrom(codes, k, c) ==> ordered[c] == start[c]
  {
    ordered := before;
    assert codes[k] in codes;
    if HasPredecessor(codes[k]) && Predecessor(codes[k]) in before {
      var earlier := Predecessor(codes[k]);
      ordered := ordered[earlier := Beside(before[codes[k]], before[earlier], feeders)];
      assert earlier in codes;
      ghost var i :| 0 <= i < |codes| && codes[i] == earlier;
      assert UntouchedFrom(codes, k + 1, earlier);
      forall j | k <= j < |codes|
        ensures OrderedAt(codes, start, ordered, feeders, j)
      {
        OrderStep(codes, start, before, feeders, k, i, j);
      }
    }
  }

  /** Order every round beside the round it feeds, from the last round back to the first; `start`
      holds the rounds in the order of their dates. */
  method OrderMatchesByTopology(codes: seq<Round>, start: map<Round, seq<Row>>, feeders: map<Place, string>)
    returns (ordered: map<Round, seq<Row>>)
    requires InPlayOrder(codes) && (forall c :: c in codes <==> c in start)
    ensures ordered.Keys == start.Keys
    ensures forall k :: 0 <= k < |codes| ==> OrderedAt(codes, start, ordered, feeders, k)
    ensures forall c :: c in start && UntouchedFrom(codes, 0, c) ==> ordered[c] == start[c]
  {
    ordered := start;
    var k := |codes|;
    while k > 0
      invariant 0 <= k <= |codes| && ordered.Keys == start.Keys
      invariant forall j :: k <= j < |codes| ==> OrderedAt(codes, start, ordered, feeders, j)
      invariant forall c :: c in start && UntouchedFrom(codes, k, c) ==> ordered[c] == start[c]
    {
      k := k - 1;
      ordered := OrderOneRound(codes, start, ordered, feeders, k);
    }
  }

  // ---- from the rows to the ordered rounds ------------------------------------------

  /** The same matches, each once. */
  ghost predicate SameMatches(some: seq<Row>, others: seq<Row>) {
    UniqueIdentities(some) && forall r :: r in some <==> r in others
  }

  /** `listed` holds the rows of that round. */
  ghost predicate HoldsRound(rows: seq<Row>, c: Round, listed: seq<Row>) {
    UniqueIdentities(listed) && forall r :: r in listed <==> r in rows && r.round == c
  }

  /** `start` lists the rows of every round of `codes`. */
  ghost predicate ByRound(rows: seq<Row>, codes: seq<Round>, start: map<Round, seq<Row>>) {
    (forall c :: c in codes <==> c in start) && forall c :: c in start ==> HoldsRound(rows, c, start[c])
  }

  /** The final order of a round lists the same matches. */
  lemma OrderedIsPermutation(codes: seq<Round>, start: map<Round, seq<Row>>, ordered: map<Round, seq<Row>>,
                             feeders: map<Place, string>, c: Round)
    requires ordered.Keys == start.Keys && (forall d :: d in codes <==> d in start)
    requires c in start && UniqueIdentities(start[c])
    requires forall k :: 0 <= k < |codes| ==> OrderedAt(codes, start, ordered, feeders, k)
    requires UntouchedFrom(codes, 0, c) ==> ordered[c] == start[c]
    ensures SameMatches(ordered[c], start[c])
  {
    if !UntouchedFrom(codes, 0, c) {
      var k :| 0 <= k < |codes| && HasPredecessor(codes[k]) && Predecessor(codes[k]) == c;
      assert codes[k] in codes && OrderedAt(codes, start, ordered, feeders, k);
      BesideIsPermutation(ordered[codes[k]], start[c], feeders);
    }
  }

  /** Round and round before, when every side of the round is proven. */
  lemma RoundStandsBeside(rows: seq<Row>, onlyFinal: bool, c: Round, targets: seq<Row>, before: seq<Row>,
                          feeders: map<Place, string>)
    requires UniqueIdentities(rows) && Exact(rows, onlyFinal, feeders)
    requires HasPredecessor(c) && HoldsRound(rows, c, targets) && HoldsRound(rows, Predecessor(c), before)
    requires AllProven(targets, feeders)
    ensures StandBeside(targets, Beside(targets, before, feeders), feeders)
  {
    InferredIsInjective(rows, onlyFinal, feeders);
    InferredAreThere(rows, onlyFinal, feeders, targets, before);
    FeedersAreBeside(targets, before, feeders);
  }

  /** The `k`-th round and the one before it are both listed, and every side of it is proven. */
  ghost predicate ProvenAt(codes: seq<Round>, ordered: map<Round, seq<Row>>, feeders: map<Place, string>, k: nat)
    requires k < |codes|
  {
    && HasPredecessor(codes[k]) && Predecessor(codes[k]) in ordered
    && codes[k] in ordered && AllProven(ordered[codes[k]], feeders)
  }

  lemma RebuiltAt(rows: seq<Row>, onlyFinal: bool, codes: seq<Round>, start: map<Round, seq<Row>>,
                  ordered: map<Round, seq<Row>>, feeders: map<Place, string>, k: nat)
    requires UniqueIdentities(rows) && Exact(rows, onlyFinal, feeders) && ByRound(rows, codes, start)
    requires k < |codes| && ordered.Keys == start.Keys && OrderedAt(codes, start, ordered, feeders, k)
    requires ProvenAt(codes, ordered, feeders, k) && SameMatches(ordered[codes[k]], start[codes[k]])
    ensures StandBeside(ordered[codes[k]], ordered[Predecessor(codes[k])], feeders)
  {
    assert HoldsRound(rows, codes[k], start[codes[k]]);
    RoundStandsBeside(rows, onlyFinal, codes[k], ordered[codes[k]], start[Predecessor(codes[k])], feeders);
  }

  /** Infer the feeders of all rows and order the rounds by them: every round lists its own matches, and
      where every side of a round is proven, the feeders of its i-th match stand at 2i and 2i + 1 of the
      round before. */
  method RebuildRounds(rows: seq<Row>, onlyFinal: bool, codes: seq<Round>, start: map<Round, seq<Row>>)
    returns (feeders: map<Place, string>, ordered: map<Round, seq<Row>>)
    requires UniqueIdentities(rows) && InPlayOrder(codes) && ByRound(rows, codes, start)
    ensures Exact(rows, onlyFinal, feeders) && ordered.Keys == start.Keys
    ensures forall c :: c in start ==> SameMatches(ordered[c], start[c])
    ensures forall k :: 0 <= k < |codes| && ProvenAt(codes, ordered, feeders, k) ==>
      StandBeside(ordered[codes[k]], ordered[Predecessor(codes[k])], feeders)
  {
    feeders := InferWinnerFeeders(rows, onlyFinal);
    ordered := OrderMatchesByTopology(codes, start, feeders);
    forall c | c in start
      ensures SameMatches(ordered[c], start[c])
    {
      OrderedIsPermutation(codes, start, ordered, feeders, c);
    }
    forall k | 0 <= k < |codes| && ProvenAt(codes, ordered, feeders, k)
      ensures StandBeside(ordered[codes[k]], ordered[Predecessor(codes[k])], feeders)
    {
      RebuiltAt(rows, onlyFinal, codes, start, ordered, feeders, k);
    }
  }
}
