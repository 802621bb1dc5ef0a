/**
 Security group rules, their meaning, and the set of rules the controller compares
 (sets_ippermissions.go).
 */
module IpRules {
  import opened Wrappers
  import opened Collections

  /** A group named as a source; the account is absent in requests and reported by the cloud. */
  datatype Member = Member(groupId: string, accountId: Option<string>)

  datatype Rule = Rule(
    protocol: Option<string>, fromPort: Option<int>, toPort: Option<int>,
    ranges: Option<seq<string>>, members: Option<seq<Member>>, services: Option<seq<string>>)
  {
    function Ranges(): seq<string> { ranges.GetOr([]) }
    function Members(): seq<Member> { members.GetOr([]) }
    function Services(): seq<string> { services.GetOr([]) }
  }

  datatype Source = Range(cidr: string) | Group(member: Member) | Service(id: string)

  /** One permission: one source may reach one port range over one protocol. */
  datatype Atom = Atom(protocol: Option<string>, fromPort: Option<int>, toPort: Option<int>, source: Source)

  function Sources(r: Rule): set<Source> {
    (set x | x in r.Ranges() :: Range(x)) + (set m | m in r.Members() :: Group(m))
    + (set v | v in r.Services() :: Service(v))
  }

  function Allows(r: Rule, s: Source): Atom {
    Atom(r.protocol, r.fromPort, r.toPort, s)
  }

  /** What one rule permits: the union of its sources, each on the rule's ports. */
  function Atoms(r: Rule): set<Atom> {
    set s | s in Sources(r) :: Allows(r, s)
  }

  function Meaning(rules: set<Rule>): set<Atom> {
    set r, a | r in rules && a in Atoms(r) :: a
  }

  /** A permission is meant exactly when some rule has its protocol and ports and lists its source. */
  lemma MeaningIs(rules: set<Rule>, a: Atom)
    ensures a in Meaning(rules) <==>
            exists r :: r in rules && r.protocol == a.protocol && r.fromPort == a.fromPort && r.toPort == a.toPort
                        && match a.source
                           case Range(x) => r.ranges.Some? && x in r.ranges.value
                           case Group(m) => r.members.Some? && m in r.members.value
                           case Service(v) => r.services.Some? && v in r.services.value
  {
    if a in Meaning(rules) {
      var r :| r in rules && a in Atoms(r);
      assert a.source in Sources(r);
    }
    if r :| r in rules && r.protocol == a.protocol && r.fromPort == a.fromPort && r.toPort == a.toPort
            && match a.source
               case Range(x) => r.ranges.Some? && x in r.ranges.value
               case Group(m) => r.members.Some? && m in r.members.value
               case Service(v) => r.services.Some? && v in r.services.value
    {
      assert a.source in Sources(r) && a == Allows(r, a.source);
      assert a in Atoms(r);
    }
  }

  // ---------- Ungrouping ----------

  ghost function SplitRanges(r: Rule): set<Rule> {
    if |r.Ranges()| <= 1 then {r} else set x | x in r.Ranges() :: r.(ranges := Some([x]))
  }

  ghost function SplitMembers(r: Rule): set<Rule> {
    if |r.Members()| <= 1 then {r} else set m | m in r.Members() :: r.(members := Some([m]))
  }

  ghost function SplitServices(r: Rule): set<Rule> {
    if |r.Services()| <= 1 then {r} else set v | v in r.Services() :: r.(services := Some([v]))
  }

  /** The rules a split turns a set of rules into. */
  ghost function SplitAll(split: Rule -> set<Rule>, rules: set<Rule>): set<Rule> {
    set r, u | r in rules && u in split(r) :: u
  }

  ghost function Ungrouped(rules: set<Rule>): set<Rule> {
    SplitAll(SplitServices, SplitAll(SplitMembers, SplitAll(SplitRanges, rules)))
  }

  ghost predicate AtMostOneOfEach(r: Rule) {
    |r.Ranges()| <= 1 && |r.Members()| <= 1 && |r.Services()| <= 1
  }

  /** Exactly one kind of source, present and not empty; the other two lists are absent. */
  predicate SingleKind(r: Rule) {
    || (r.Ranges() != [] && r.members.None? && r.services.None?)
    || (r.Members() != [] && r.ranges.None? && r.services.None?)
    || (r.Services() != [] && r.ranges.None? && r.members.None?)
  }

  predicate AllSingleKind(rules: set<Rule>) {
    forall r :: r in rules ==> SingleKind(r)
  }

  /** The rule that permits exactly one atom. */
  function Piece(a: Atom): Rule {
    match a.source
    case Range(x) => Rule(a.protocol, a.fromPort, a.toPort, Some([x]), None, None)
    case Group(m) => Rule(a.protocol, a.fromPort, a.toPort, None, Some([m]), None)
    case Service(v) => Rule(a.protocol, a.fromPort, a.toPort, None, None, Some([v]))
  }

  function Pieces(atoms: set<Atom>): set<Rule> {
    set a | a in atoms :: Piece(a)
  }

  // ---------- Ungrouping one rule ----------

  ghost function UngroupedRule(r: Rule): set<Rule> {
    Ungrouped({r})
  }

  lemma InUngrouped(rules: set<Rule>, u: Rule)
    ensures u in Ungrouped(rules) <==>
            exists r, p, q :: r in rules && p in SplitRanges(r) && q in SplitMembers(p) && u in SplitServices(q)
  {
    var l1 := SplitAll(SplitRanges, rules);
    var l2 := SplitAll(SplitMembers, l1);
    if u in Ungrouped(rules) {
      var q :| q in l2 && u in SplitServices(q);
      var p :| p in l1 && q in SplitMembers(p);
      var r :| r in rules && p in SplitRanges(r);
    }
    if r, p, q :| r in rules && p in SplitRanges(r) && q in SplitMembers(p) && u in SplitServices(q) {
      assert p in l1;
      assert q in l2;
    }
  }

  lemma InUngroupedRule(rules: set<Rule>, u: Rule)
    ensures u in Ungrouped(rules) <==> exists r :: r in rules && u in UngroupedRule(r)
  {
    InUngrouped(rules, u);
    forall r ensures u in UngroupedRule(r) <==>
      exists p, q :: p in SplitRanges(r) && q in SplitMembers(p) && u in SplitServices(q)
    {
      InUngrouped({r}, u);
    }
  }

  /** A split into the pieces of one list keeps the meaning, because a rule means the union of its sources. */
  lemma SplitKeepsMeaning(rules: set<Rule>)
    ensures Meaning(SplitAll(SplitRanges, rules)) == Meaning(rules)
    ensures Meaning(SplitAll(SplitMembers, rules)) == Meaning(rules)
    ensures Meaning(SplitAll(SplitServices, rules)) == Meaning(rules)
  {
    forall r | r in rules
      ensures Meaning(SplitRanges(r)) == Atoms(r) && Meaning(SplitMembers(r)) == Atoms(r)
              && Meaning(SplitServices(r)) == Atoms(r)
    {
      SplitRuleKeepsMeaning(r);
    }
    SplitAllKeepsMeaning(SplitRanges, rules);
    SplitAllKeepsMeaning(SplitMembers, rules);
    SplitAllKeepsMeaning(SplitServices, rules);
  }

  lemma SplitAllKeepsMeaning(split: Rule -> set<Rule>, rules: set<Rule>)
    requires forall r :: r in rules ==> Meaning(split(r)) == Atoms(r)
    ensures Meaning(SplitAll(split, rules)) == Meaning(rules)
  {
    var out := SplitAll(split, rules);
    forall a | a in Meaning(out) ensures a in Meaning(rules) {
      var u :| u in out && a in Atoms(u);
      var r :| r in rules && u in split(r);
      assert a in Meaning(split(r));
    }
    forall a | a in Meaning(rules) ensures a in Meaning(out) {
      var r :| r in rules && a in Atoms(r);
      assert a in Meaning(split(r));
      var u :| u in split(r) && a in Atoms(u);
      assert u in out;
    }
  }

  lemma SplitRuleKeepsMeaning(r: Rule)
    ensures Meaning(SplitRanges(r)) == Atoms(r)
    ensures Meaning(SplitMembers(r)) == Atoms(r)
    ensures Meaning(SplitServices(r)) == Atoms(r)
  {
    SplitRangesKeepsMeaning(r);
    SplitMembersKeepsMeaning(r);
    SplitServicesKeepsMeaning(r);
  }

  lemma SplitRangesKeepsMeaning(r: Rule)
    ensures Meaning(SplitRanges(r)) == Atoms(r)
  {
    forall a | a in Atoms(r) ensures a in Meaning(SplitRanges(r)) {
      var u := r;
      if |r.Ranges()| > 1 {
        var x := if a.source.Range? then a.source.cidr else r.Ranges()[0];
        u := r.(ranges := Some([x]));
        assert x in r.Ranges() && u in SplitRanges(r);
        assert u.Ranges()[0] == x;
      }
      assert a.source in Sources(u);
      assert a == Allows(u, a.source);
      assert a in Atoms(u) && u in SplitRanges(r);
    }
    forall a | a in Meaning(SplitRanges(r)) ensures a in Atoms(r) {
      var u :| u in SplitRanges(r) && a in Atoms(u);
      assert a.source in Sources(r);
      assert a == Allows(r, a.source);
    }
  }

  lemma SplitMembersKeepsMeaning(r: Rule)
    ensures Meaning(SplitMembers(r)) == Atoms(r)
  {
    forall a | a in Atoms(r) ensures a in Meaning(SplitMembers(r)) {
      var u := r;
      if |r.Members()| > 1 {
        var m := if a.source.Group? then a.source.member else r.Members()[0];
        u := r.(members := Some([m]));
        assert m in r.Members() && u in SplitMembers(r);
        assert u.Members()[0] == m;
      }
      assert a.source in Sources(u);
      assert a == Allows(u, a.source);
      assert a in Atoms(u) && u in SplitMembers(r);
    }
    forall a | a in Meaning(SplitMembers(r)) ensures a in Atoms(r) {
      var u :| u in SplitMembers(r) && a in Atoms(u);
      assert a.source in Sources(r);
      assert a == Allows(r, a.source);
    }
  }

  lemma SplitServicesKeepsMeaning(r: Rule)
    ensures Meaning(SplitServices(r)) == Atoms(r)
  {
    forall a | a in Atoms(r) ensures a in Meaning(SplitServices(r)) {
      var u := r;
      if |r.Services()| > 1 {
        var v := if a.source.Service? then a.source.id else r.Services()[0];
        u := r.(services := Some([v]));
        assert v in r.Services() && u in SplitServices(r);
        assert u.Services()[0] == v;
      }
      assert a.source in Sources(u);
      assert a == Allows(u, a.source);
      assert a in Atoms(u) && u in SplitServices(r);
    }
    forall a | a in Meaning(SplitServices(r)) ensures a in Atoms(r) {
      var u :| u in SplitServices(r) && a in Atoms(u);
      assert a.source in Sources(r);
      assert a == Allows(r, a.source);
    }
  }

  // ---------- Ungroup is a canonical form ----------

  lemma UngroupPreservesMeaning(rules: set<Rule>)
    ensures Meaning(Ungrouped(rules)) == Meaning(rules)
  {
    SplitKeepsMeaning(rules);
    SplitKeepsMeaning(SplitAll(SplitRanges, rules));
    SplitKeepsMeaning(SplitAll(SplitMembers, SplitAll(SplitRanges, rules)));
  }

  lemma UngroupLeavesOneOfEach(rules: set<Rule>, u: Rule)
    requires u in Ungrouped(rules)
    ensures AtMostOneOfEach(u)
  {
    InUngrouped(rules, u);
  }

  /** Rules that already have at most one source of each kind are left alone. */
  lemma UngroupFixesSmallRules(rules: set<Rule>)
    requires forall r :: r in rules ==> AtMostOneOfEach(r)
    ensures Ungrouped(rules) == rules
  {
    forall u ensures u in Ungrouped(rules) <==> u in rules {
      InUngrouped(rules, u);
      if u in rules {
        assert u in SplitRanges(u) && u in SplitMembers(u) && u in SplitServices(u);
      }
    }
  }

  lemma UngroupIdempotent(rules: set<Rule>)
    ensures Ungrouped(Ungrouped(rules)) == Ungrouped(rules)
  {
    forall u | u in Ungrouped(rules) ensures AtMostOneOfEach(u) {
      UngroupLeavesOneOfEach(rules, u);
    }
    UngroupFixesSmallRules(Ungrouped(rules));
  }

  lemma SmallSingleKindIsPiece(u: Rule) returns (a: Atom)
    requires SmallSingleKind(u)
    ensures Atoms(u) == {a} && u == Piece(a)
  {
    var s := if u.Ranges() != [] then Range(u.Ranges()[0])
             else if u.Members() != [] then Group(u.Members()[0]) else Service(u.Services()[0]);
    assert Sources(u) == {s};
    assert Atoms(u) == {Allows(u, s)};
    if u.Ranges() != [] {
      assert u.Ranges() == [u.Ranges()[0]];
    } else if u.Members() != [] {
      assert u.Members() == [u.Members()[0]];
    } else {
      assert u.Services() == [u.Services()[0]];
    }
    a := Allows(u, s);
  }

  /** Ungrouping neither makes nor hides a mixed rule. */
  lemma UngroupKeepsKind(r: Rule, u: Rule)
    requires u in UngroupedRule(r)
    ensures SingleKind(u) <==> SingleKind(r)
  {
    InUngrouped({r}, u);
  }

  lemma UngroupedRuleNotEmpty(r: Rule)
    ensures exists u :: u in UngroupedRule(r)
  {
    var p := if |r.Ranges()| <= 1 then r else r.(ranges := Some([r.Ranges()[0]]));
    var q := if |p.Members()| <= 1 then p else p.(members := Some([p.Members()[0]]));
    var u := if |q.Services()| <= 1 then q else q.(services := Some([q.Services()[0]]));
    assert p in SplitRanges(r) && q in SplitMembers(p) && u in SplitServices(q);
    assert r in {r};
    InUngrouped({r}, u);
    assert u in UngroupedRule(r);
  }

  /** Every ungrouped rule is the piece of one atom exactly when no rule mixes kinds of source. */
  lemma UngroupYieldsPiecesIff(rules: set<Rule>)
    ensures Ungrouped(rules) == Pieces(Meaning(rules)) <==> AllSingleKind(rules)
  {
    if AllSingleKind(rules) {
      SingleKindUngroupsToPieces(rules);
    } else {
      var r :| r in rules && !SingleKind(r);
      UngroupedRuleNotEmpty(r);
      var u :| u in UngroupedRule(r);
      UngroupKeepsKind(r, u);
      InUngroupedRule(rules, u);
      assert forall a :: SingleKind(Piece(a));
      assert u !in Pieces(Meaning(rules));
    }
  }

  lemma SingleKindUngroupsToPieces(rules: set<Rule>)
    requires AllSingleKind(rules)
    ensures Ungrouped(rules) == Pieces(Meaning(rules))
  {
    UngroupPreservesMeaning(rules);
    forall u | u in Ungrouped(rules) ensures SmallSingleKind(u) {
      InUngroupedRule(rules, u);
      var r :| r in rules && u in UngroupedRule(r);
      UngroupKeepsKind(r, u);
      UngroupLeavesOneOfEach(rules, u);
    }
    SmallSingleKindRulesArePieces(Ungrouped(rules));
  }

  ghost predicate SmallSingleKind(u: Rule) {
    SingleKind(u) && AtMostOneOfEach(u)
  }

  lemma SmallSingleKindRulesArePieces(rules: set<Rule>)
    requires forall u :: u in rules ==> SmallSingleKind(u)
    ensures rules == Pieces(Meaning(rules))
  {
    var atoms := Meaning(rules);
    forall u | u in rules ensures exists a :: a in atoms && u == Piece(a) {
      var a := SmallSingleKindIsPiece(u);
      assert a in Atoms(u);
    }
    forall a | a in atoms ensures Piece(a) in rules {
      PieceOfMeaning(rules, a);
    }
    PiecesAre(atoms, rules);
  }

  lemma PieceOfMeaning(rules: set<Rule>, a: Atom)
    requires forall u :: u in rules ==> SmallSingleKind(u)
    requires a in Meaning(rules)
    ensures Piece(a) in rules
  {
    var w :| w in rules && a in Atoms(w);
    var b := SmallSingleKindIsPiece(w);
  }

  lemma PiecesAre(atoms: set<Atom>, rules: set<Rule>)
    requires forall u :: u in rules ==> exists a :: a in atoms && u == Piece(a)
    requires forall a :: a in atoms ==> Piece(a) in rules
    ensures rules == Pieces(atoms)
  {
  }

  lemma PiecesMeanTheirAtoms(atoms: set<Atom>)
    ensures Meaning(Pieces(atoms)) == atoms
    ensures AllSingleKind(Pieces(atoms))
  {
    forall u | u in Pieces(atoms) ensures SingleKind(u) && Atoms(u) <= atoms {
      var a :| a in atoms && u == Piece(a);
      PieceMeansItsAtom(a);
    }
    forall a | a in atoms ensures a in Meaning(Pieces(atoms)) {
      PieceMeansItsAtom(a);
      assert Piece(a) in Pieces(atoms);
    }
  }

  lemma PieceMeansItsAtom(a: Atom)
    ensures Atoms(Piece(a)) == {a} && SingleKind(Piece(a))
  {
    var u := Piece(a);
    match a.source
    case Range(x) => assert u.Ranges()[0] == x; assert Sources(u) == {a.source};
    case Group(m) => assert u.Members()[0] == m; assert Sources(u) == {a.source};
    case Service(v) => assert u.Services()[0] == v; assert Sources(u) == {a.source};
  }

  /** Equal ungrouped forms are equal meanings, and conversely, when no rule mixes kinds of source. */
  lemma UngroupIsCanonical(rules: set<Rule>, others: set<Rule>)
    requires AllSingleKind(rules) && AllSingleKind(others)
    ensures Ungrouped(rules) == Ungrouped(others) <==> Meaning(rules) == Meaning(others)
  {
    SingleKindUngroupsToPieces(rules);
    SingleKindUngroupsToPieces(others);
    PiecesMeanTheirAtoms(Meaning(rules));
    PiecesMeanTheirAtoms(Meaning(others));
  }

  /** The difference of two ungrouped sets permits exactly the difference of what they permit. */
  lemma DifferenceOfUngroupedIsDifferenceOfMeanings(rules: set<Rule>, others: set<Rule>)
    requires AllSingleKind(rules) && AllSingleKind(others)
    ensures Meaning(Ungrouped(rules) - Ungrouped(others)) == Meaning(rules) - Meaning(others)
    ensures Ungrouped(rules) - Ungrouped(others) == Pieces(Meaning(rules) - Meaning(others))
  {
    SingleKindUngroupsToPieces(rules);
    SingleKindUngroupsToPieces(others);
    var gone := Meaning(rules) - Meaning(others);
    forall u | u in Pieces(gone) ensures u in Ungrouped(rules) - Ungrouped(others) {
      var a :| a in gone && u == Piece(a);
      forall b | b in Meaning(others) ensures Piece(b) != u {
        if Piece(b) == u { PieceInjective(a, b); }
      }
    }
    assert Ungrouped(rules) - Ungrouped(others) == Pieces(gone);
    PiecesMeanTheirAtoms(gone);
  }

  lemma PieceInjective(a: Atom, b: Atom)
    requires Piece(a) == Piece(b)
    ensures a == b
  {
    PieceMeansItsAtom(a);
    PieceMeansItsAtom(b);
    assert a in {b};
  }

  /**
   A mixed rule defeats the comparison: the same permissions, written once as a mixed rule and once
   as two plain rules, have ungrouped forms with nothing in common.
   */
  lemma MixedRuleDefeatsUngroup(cidr: string, m: Member)
    ensures var mixed := Rule(Some("tcp"), Some(80), Some(80), Some([cidr]), Some([m]), None);
            var plain := {mixed.(members := None), mixed.(ranges := None)};
            && Meaning({mixed}) == Meaning(plain)
            && Ungrouped({mixed}) !! Ungrouped(plain)
  {
    var mixed := Rule(Some("tcp"), Some(80), Some(80), Some([cidr]), Some([m]), None);
    var p0, p1 := mixed.(members := None), mixed.(ranges := None);
    UngroupFixesSmallRules({mixed});
    UngroupFixesSmallRules({p0, p1});
    assert Sources(mixed) == Sources(p0) + Sources(p1);
    SameScopeSplits(mixed, p0, p1);
  }

  /** Two rules on the same ports that share out the sources of a third mean the same as it. */
  lemma SameScopeSplits(r: Rule, p: Rule, q: Rule)
    requires p.protocol == q.protocol == r.protocol && p.fromPort == q.fromPort == r.fromPort && p.toPort == q.toPort == r.toPort
    requires Sources(r) == Sources(p) + Sources(q)
    ensures Meaning({r}) == Meaning({p, q})
  {
    assert Meaning({r}) == Atoms(r);
    assert Meaning({p, q}) == Atoms(p) + Atoms(q);
    assert Atoms(r) == Atoms(p) + Atoms(q);
  }

  // ---------- When the reported rules may be mixed ----------

  /** No reported rule of mixed kind permits anything desired. */
  ghost predicate Fits(reported: set<Rule>, desired: set<Atom>) {
    forall r :: r in reported && !SingleKind(r) ==> Atoms(r) !! desired
  }

  /** Every reported rule permits something. */
  ghost predicate Sourced(reported: set<Rule>) {
    forall r :: r in reported ==> Atoms(r) != {}
  }

  lemma SourcedIff(reported: set<Rule>)
    ensures Sourced(reported) <==> forall r :: r in reported ==> r.Ranges() != [] || r.Members() != [] || r.Services() != []
  {
    forall r ensures Atoms(r) != {} <==> r.Ranges() != [] || r.Members() != [] || r.Services() != [] {
      HasAtomIff(r);
    }
  }

  lemma HasAtomIff(r: Rule)
    ensures Atoms(r) != {} <==> r.Ranges() != [] || r.Members() != [] || r.Services() != []
  {
    if r.Ranges() != [] {
      assert Range(r.Ranges()[0]) in Sources(r);
    } else if r.Members() != [] {
      assert Group(r.Members()[0]) in Sources(r);
    } else if r.Services() != [] {
      assert Service(r.Services()[0]) in Sources(r);
    }
    assert forall s :: s in Sources(r) ==> Allows(r, s) in Atoms(r);
  }

  /** What the comparison asks to create and to delete. */
  ghost function PlannedAdditions(wanted: set<Rule>, reported: set<Rule>): set<Atom> {
    Meaning(Ungrouped(wanted) - Ungrouped(reported))
  }

  ghost function PlannedRemovals(wanted: set<Rule>, reported: set<Rule>): set<Atom> {
    Meaning(Ungrouped(reported) - Ungrouped(wanted))
  }

  lemma OriginOfUngrouped(rules: set<Rule>, u: Rule) returns (r: Rule)
    requires u in Ungrouped(rules)
    ensures r in rules && u in UngroupedRule(r) && AtMostOneOfEach(u)
    ensures (SingleKind(u) <==> SingleKind(r)) && Atoms(u) <= Atoms(r)
  {
    UngroupLeavesOneOfEach(rules, u);
    InUngroupedRule(rules, u);
    r :| r in rules && u in UngroupedRule(r);
    UngroupKeepsKind(r, u);
    UngroupPreservesMeaning({r});
    assert Meaning({r}) == Atoms(r);
  }

  lemma UngroupedOfAtom(rules: set<Rule>, r: Rule, a: Atom) returns (u: Rule)
    requires r in rules && a in Atoms(r)
    ensures u in Ungrouped(rules) && a in Atoms(u) && (SingleKind(u) <==> SingleKind(r))
  {
    UngroupPreservesMeaning({r});
    assert a in Meaning({r});
    u :| u in Ungrouped({r}) && a in Atoms(u);
    UngroupKeepsKind(r, u);
    InUngroupedRule(rules, u);
  }

  /** The additions are the desired permissions that are not reported as a rule of their own. */
  lemma PlannedAdditionsAre(wanted: set<Rule>, reported: set<Rule>)
    requires AllSingleKind(wanted)
    ensures PlannedAdditions(wanted, reported) == set d | d in Meaning(wanted) && Piece(d) !in Ungrouped(reported)
  {
    SingleKindUngroupsToPieces(wanted);
    var missing := set d | d in Meaning(wanted) && Piece(d) !in Ungrouped(reported);
    assert Pieces(Meaning(wanted)) - Ungrouped(reported) == Pieces(missing);
    PiecesMeanTheirAtoms(missing);
  }

  /** A desired permission is only removed with a reported rule of mixed kind that permits it. */
  lemma RemovedDesiredIsMixed(wanted: set<Rule>, reported: set<Rule>, d: Atom)
    requires AllSingleKind(wanted) && d in Meaning(wanted) && d in PlannedRemovals(wanted, reported)
    ensures exists r :: r in reported && !SingleKind(r) && d in Atoms(r)
  {
    SingleKindUngroupsToPieces(wanted);
    var u :| u in Ungrouped(reported) - Ungrouped(wanted) && d in Atoms(u);
    var r := OriginOfUngrouped(reported, u);
    if SingleKind(u) {
      var a := SmallSingleKindIsPiece(u);
    }
  }

  /** A mixed rule that permits something desired is removed as a whole. */
  lemma MixedIsRemoved(wanted: set<Rule>, reported: set<Rule>, r: Rule, d: Atom)
    requires AllSingleKind(wanted) && r in reported && !SingleKind(r) && d in Atoms(r)
    ensures d in PlannedRemovals(wanted, reported)
  {
    SingleKindUngroupsToPieces(wanted);
    PiecesMeanTheirAtoms(Meaning(wanted));
    var u := UngroupedOfAtom(reported, r, d);
  }

  lemma NotDesiredIsRemoved(wanted: set<Rule>, reported: set<Rule>, a: Atom)
    requires AllSingleKind(wanted) && a in Meaning(reported) && a !in Meaning(wanted)
    ensures a in PlannedRemovals(wanted, reported)
  {
    SingleKindUngroupsToPieces(wanted);
    PiecesMeanTheirAtoms(Meaning(wanted));
    var r :| r in reported && a in Atoms(r);
    var u := UngroupedOfAtom(reported, r, a);
    assert u in Pieces(Meaning(wanted)) ==> a in Meaning(Pieces(Meaning(wanted)));
  }

  lemma AddedAreMissing(wanted: set<Rule>, reported: set<Rule>, d: Atom)
    requires AllSingleKind(wanted) && Fits(reported, Meaning(wanted)) && d in Meaning(wanted)
    ensures Piece(d) !in Ungrouped(reported) <==> d !in Meaning(reported)
  {
    UngroupPreservesMeaning(reported);
    PieceMeansItsAtom(d);
    if d in Meaning(reported) {
      var r :| r in reported && d in Atoms(r);
      var u := UngroupedOfAtom(reported, r, d);
      var o := OriginOfUngrouped(reported, u);
      var a := SmallSingleKindIsPiece(u);
    } else {
      assert Piece(d) in Ungrouped(reported) ==> d in Meaning(Ungrouped(reported));
    }
  }

  /** Whatever is reported, only what is desired is asked for, and only what is there is removed. */
  lemma PlanBounds(wanted: set<Rule>, reported: set<Rule>)
    ensures PlannedAdditions(wanted, reported) <= Meaning(wanted)
    ensures PlannedRemovals(wanted, reported) <= Meaning(reported)
  {
    UngroupPreservesMeaning(wanted);
    UngroupPreservesMeaning(reported);
  }

  lemma PlanThatFits(wanted: set<Rule>, reported: set<Rule>)
    requires AllSingleKind(wanted) && Fits(reported, Meaning(wanted))
    ensures PlannedAdditions(wanted, reported) == Meaning(wanted) - Meaning(reported)
    ensures PlannedRemovals(wanted, reported) == Meaning(reported) - Meaning(wanted)
  {
    PlanBounds(wanted, reported);
    PlannedAdditionsAre(wanted, reported);
    forall d | d in Meaning(wanted) ensures Piece(d) !in Ungrouped(reported) <==> d !in Meaning(reported) {
      AddedAreMissing(wanted, reported, d);
    }
    forall a | a in Meaning(reported) ensures a in PlannedRemovals(wanted, reported) <==> a !in Meaning(wanted) {
      if a !in Meaning(wanted) {
        NotDesiredIsRemoved(wanted, reported, a);
      } else if a in PlannedRemovals(wanted, reported) {
        RemovedDesiredIsMixed(wanted, reported, a);
      }
    }
  }

  /**
   For desired rules of one kind each and any reported rules: the additions are accepted and lead, with the
   removals, to exactly what is desired if and only if the reported rules fit.
   */
  lemma PlanIsRightIff(wanted: set<Rule>, reported: set<Rule>)
    requires AllSingleKind(wanted)
    ensures var had, add, remove := Meaning(reported), PlannedAdditions(wanted, reported), PlannedRemovals(wanted, reported);
            (add !! had && (had + add) - remove == Meaning(wanted)) <==> Fits(reported, Meaning(wanted))
  {
    if Fits(reported, Meaning(wanted)) {
      PlanThatFits(wanted, reported);
    } else {
      var r :| r in reported && !SingleKind(r) && !(Atoms(r) !! Meaning(wanted));
      var d :| d in Atoms(r) && d in Meaning(wanted);
      MixedIsRemoved(wanted, reported, r, d);
      assert d in Meaning(reported);
    }
  }

  /** Nothing is planned exactly when the ungrouped forms agree; for sourced rules that fit, when nothing is to change. */
  lemma PlanEmptyIffNothingToChange(wanted: set<Rule>, reported: set<Rule>)
    requires AllSingleKind(wanted) && Fits(reported, Meaning(wanted))
    ensures Ungrouped(wanted) == Ungrouped(reported) ==> Meaning(wanted) == Meaning(reported)
    ensures Sourced(reported) && Meaning(wanted) == Meaning(reported) ==> Ungrouped(wanted) == Ungrouped(reported)
  {
    UngroupPreservesMeaning(wanted);
    UngroupPreservesMeaning(reported);
    if Sourced(reported) && Meaning(wanted) == Meaning(reported) {
      forall r | r in reported ensures SingleKind(r) {
        assert Atoms(r) <= Meaning(reported);
        assert Atoms(r) * Meaning(wanted) == Atoms(r);
      }
      UngroupIsCanonical(wanted, reported);
    }
  }

  /** A rule with two kinds of source, and what remains of it without the second. */
  function MixedRule(cidr: string, m: Member): Rule {
    Rule(Some("tcp"), Some(80), Some(80), Some([cidr]), Some([m]), None)
  }

  function RangeRule(cidr: string): Rule {
    Rule(Some("tcp"), Some(80), Some(80), Some([cidr]), None, None)
  }

  function RangeAtom(cidr: string): Atom {
    Atom(Some("tcp"), Some(80), Some(80), Range(cidr))
  }

  /** The desired permission is there with another source in one rule: the comparison asks for it again. */
  lemma MixedReportAsksAgain(cidr: string, m: Member)
    ensures AllSingleKind({RangeRule(cidr)}) && !Fits({MixedRule(cidr, m)}, Meaning({RangeRule(cidr)}))
    ensures Meaning({RangeRule(cidr)}) == {RangeAtom(cidr)} && RangeAtom(cidr) in Meaning({MixedRule(cidr, m)})
    ensures RangeAtom(cidr) in PlannedAdditions({RangeRule(cidr)}, {MixedRule(cidr, m)})
  {
    var mixed, only := MixedRule(cidr, m), RangeRule(cidr);
    var a := Allows(only, Range(cidr));
    OneRange(only, cidr);
    MixedPermits(mixed, only, cidr);
    UngroupFixesSmallRules({mixed});
    UngroupFixesSmallRules({only});
    assert {only} - {mixed} == {only};
    assert mixed in {mixed} && a in Meaning({mixed});
    assert !(Atoms(mixed) !! Meaning({only}));
  }

  lemma MixedPermits(mixed: Rule, only: Rule, cidr: string)
    requires mixed.ranges == Some([cidr]) && only == mixed.(members := None)
    ensures Allows(only, Range(cidr)) in Atoms(mixed)
  {
    assert mixed.Ranges()[0] == cidr;
    assert Range(cidr) in Sources(mixed);
  }

  lemma OneRange(only: Rule, cidr: string)
    requires only.ranges == Some([cidr]) && only.members.None? && only.services.None?
    ensures Atoms(only) == {Allows(only, Range(cidr))} && Meaning({only}) == Atoms(only) && SingleKind(only)
  {
    assert only.Ranges()[0] == cidr;
    assert Sources(only) == {Range(cidr)};
    assert Atoms(only) == {Allows(only, Range(cidr))};
  }

  /** It is also there in a rule of its own: nothing is asked for, and the removal takes it away. */
  lemma MixedReportLosesDesired(cidr: string, m: Member)
    ensures var wanted, reported := {RangeRule(cidr)}, {MixedRule(cidr, m), RangeRule(cidr)};
            && PlannedAdditions(wanted, reported) == {}
            && Meaning(wanted) <= Meaning(reported) && Meaning(wanted) <= PlannedRemovals(wanted, reported) && Meaning(wanted) != {}
  {
    var mixed, only := MixedRule(cidr, m), RangeRule(cidr);
    var a := Allows(only, Range(cidr));
    var reported := {mixed, only};
    OneRange(only, cidr);
    MixedPermits(mixed, only, cidr);
    UngroupFixesSmallRules(reported);
    UngroupFixesSmallRules({only});
    assert {only} - reported == {};
    MixedIsRemoved({only}, reported, mixed, a);
    assert only in reported && a in Meaning(reported);
  }

  // ---------- The mutable set ----------

  /** The key a rule is stored under. The original renders the rule as JSON; only injectivity matters. */
  datatype Key = Key(rule: Rule)

  function KeyForIPRules(r: Rule): Key {
    Key(r)
  }

  class IPRulesSet {
    var items: map<Key, Rule>

    ghost predicate Valid()
      reads this
    {
      forall k :: k in items ==> k == KeyForIPRules(items[k])
    }

    ghost function Rules(): set<Rule>
      reads this
    {
      set k | k in items :: items[k]
    }

    /** A rule is in the set exactly when its key is. */
    lemma Keyed()
      requires Valid()
      ensures forall r :: r in Rules() <==> KeyForIPRules(r) in items
    {
    }

    constructor (rules: seq<Rule>)
      ensures Valid() && Rules() == Elems(rules)
    {
      items := map[];
      new;
      Insert(rules);
    }

    method Insert(rules: seq<Rule>)
      requires Valid()
      modifies this
      ensures Valid() && Rules() == old(Rules()) + Elems(rules)
    {
      for i := 0 to |rules|
        invariant Valid() && Rules() == old(Rules()) + Elems(rules[..i])
      {
        var p := rules[i];
        var k := KeyForIPRules(p);
        ghost var before := Rules();
        Keyed();
        items := items[k := p];
        Keyed();
        assert Rules() == before + {p};
        assert rules[..i + 1] == rules[..i] + [p];
        ElemsOfConcat(rules[..i], [p]);
      }
      assert rules[..|rules|] == rules;
    }

    /** The rules in some order. */
    method List() returns (l: seq<Rule>)
      requires Valid()
      ensures Lists(l, Rules())
    {
      l := [];
      var todo := items.Keys;
      while todo != {}
        invariant todo <= items.Keys
        invariant NoDuplicates(l) && Elems(l) == set k | k in items && k !in todo :: items[k]
        decreases |todo|
      {
        var k :| k in todo;
        assert items[k] !in Elems(l);
        assert forall i :: 0 <= i < |l| ==> l[i] in Elems(l);
        ghost var before := Elems(l);
        ElemsOfConcat(l, [items[k]]);
        l := l + [items[k]];
        todo := todo - {k};
        assert Elems(l) == before + {items[k]};
      }
      assert Elems(l) == Rules();
    }

    method Ungroup() returns (s: IPRulesSet)
      requires Valid()
      ensures fresh(s) && s.Valid() && s.Rules() == Ungrouped(Rules())
    {
      var listed := List();
      var l := UngroupRanges(listed);
      var l2 := UngroupMembers(l);
      var l3 := UngroupServices(l2);
      s := new IPRulesSet(l3);
    }

    /** The rules of this set whose keys are not in the other. */
    method Difference(s2: IPRulesSet) returns (result: IPRulesSet)
      requires Valid() && s2.Valid()
      ensures fresh(result) && result.Valid() && result.Rules() == Rules() - s2.Rules()
    {
      result := new IPRulesSet([]);
      result.Keyed();
      assert result.items.Keys == set r | r in result.Rules() :: KeyForIPRules(r);
      var todo := items.Keys;
      while todo != {}
        invariant todo <= items.Keys
        invariant fresh(result) && result.Valid()
        invariant result.items.Keys == (set k | k in items && k !in todo && k !in s2.items)
        decreases |todo|
      {
        var k :| k in todo;
        if k !in s2.items {
          result.items := result.items[k := items[k]];
        }
        todo := todo - {k};
      }
      Keyed();
      s2.Keyed();
      result.Keyed();
    }
  }

  method UngroupRanges(rules: seq<Rule>) returns (l: seq<Rule>)
    ensures Elems(l) == SplitAll(SplitRanges, Elems(rules))
  {
    l := [];
    for i := 0 to |rules|
      invariant Elems(l) == SplitAll(SplitRanges, Elems(rules[..i]))
    {
      var p := rules[i];
      ghost var before := l;
      if |p.Ranges()| <= 1 {
        l := l + [p];
      } else {
        for j := 0 to |p.Ranges()|
          invariant Elems(l) == Elems(before) + set x | x in p.Ranges()[..j] :: p.(ranges := Some([x]))
        {
          ghost var l0 := l;
          var c := p.(ranges := Some([p.Ranges()[j]]));
          l := l + [c];
          ElemsOfConcat(l0, [c]);
          assert p.Ranges()[..j + 1] == p.Ranges()[..j] + [p.Ranges()[j]];
        }
      }
      assert |p.Ranges()| > 1 ==> p.Ranges()[..|p.Ranges()|] == p.Ranges();
      assert Elems(l) == Elems(before) + SplitRanges(p);
      SplitAllGrows(SplitRanges, rules, i);
    }
    assert rules[..|rules|] == rules;
  }

  method UngroupMembers(rules: seq<Rule>) returns (l: seq<Rule>)
    ensures Elems(l) == SplitAll(SplitMembers, Elems(rules))
  {
    l := [];
    for i := 0 to |rules|
      invariant Elems(l) == SplitAll(SplitMembers, Elems(rules[..i]))
    {
      var p := rules[i];
      ghost var before := l;
      if |p.Members()| <= 1 {
        l := l + [p];
      } else {
        for j := 0 to |p.Members()|
          invariant Elems(l) == Elems(before) + set m | m in p.Members()[..j] :: p.(members := Some([m]))
        {
          ghost var l0 := l;
          var c := p.(members := Some([p.Members()[j]]));
          l := l + [c];
          ElemsOfConcat(l0, [c]);
          assert p.Members()[..j + 1] == p.Members()[..j] + [p.Members()[j]];
        }
      }
      assert |p.Members()| > 1 ==> p.Members()[..|p.Members()|] == p.Members();
      assert Elems(l) == Elems(before) + SplitMembers(p);
      SplitAllGrows(SplitMembers, rules, i);
    }
    assert rules[..|rules|] == rules;
  }

  method UngroupServices(rules: seq<Rule>) returns (l: seq<Rule>)
    ensures Elems(l) == SplitAll(SplitServices, Elems(rules))
  {
    l := [];
    for i := 0 to |rules|
      invariant Elems(l) == SplitAll(SplitServices, Elems(rules[..i]))
    {
      var p := rules[i];
      ghost var before := l;
      if |p.Services()| <= 1 {
        l := l + [p];
      } else {
        for j := 0 to |p.Services()|
          invariant Elems(l) == Elems(before) + set v | v in p.Services()[..j] :: p.(services := Some([v]))
        {
          ghost var l0 := l;
          var c := p.(services := Some([p.Services()[j]]));
          l := l + [c];
          ElemsOfConcat(l0, [c]);
          assert p.Services()[..j + 1] == p.Services()[..j] + [p.Services()[j]];
        }
      }
      assert |p.Services()| > 1 ==> p.Services()[..|p.Services()|] == p.Services();
      assert Elems(l) == Elems(before) + SplitServices(p);
      SplitAllGrows(SplitServices, rules, i);
    }
    assert rules[..|rules|] == rules;
  }

  lemma SplitAllGrows(split: Rule -> set<Rule>, rules: seq<Rule>, i: nat)
    requires i < |rules|
    ensures SplitAll(split, Elems(rules[..i + 1])) == SplitAll(split, Elems(rules[..i])) + split(rules[i])
  {
    assert rules[..i + 1] == rules[..i] + [rules[i]];
    ElemsOfConcat(rules[..i], [rules[i]]);
    assert Elems([rules[i]]) == {rules[i]};
  }
}
