/**
 * Referral binding: parsing the target out of a `ref_<id>` start argument and
 * recording it, once, as the claiming user's referrer.
 */
module Referral {
  import opened Wrappers
  import opened Records

  /** Python's `s.split(sep)` for a one-character separator. */
  function Split(s: string, sep: char): (parts: seq<string>)
    ensures |parts| >= 1
    ensures sep in s <==> |parts| >= 2
    ensures forall i :: 0 <= i < |parts| ==> sep !in parts[i]
    decreases |s|
  {
    if s == [] then [""]
    else
      var rest := Split(s[1..], sep);
      if s[0] == sep then [""] + rest
      else [[s[0]] + rest[0]] + rest[1..]
  }

  /** Python's `sep.join(parts)`, the inverse of `Split`. */
  function Join(parts: seq<string>, sep: char): string
    requires |parts| >= 1
    decreases |parts|
  {
    if |parts| == 1 then parts[0] else parts[0] + [sep] + Join(parts[1..], sep)
  }

  /** Splitting loses nothing: joining the pieces gives the string back. */
  lemma {:induction false} JoinSplit(s: string, sep: char)
    ensures Join(Split(s, sep), sep) == s
    decreases |s|
  {
    if s != [] {
      JoinSplit(s[1..], sep);
      var rest := Split(s[1..], sep);
      if s[0] == sep {
        assert ([""] + rest)[1..] == rest;
        assert s == [sep] + s[1..];
      } else {
        var parts := [[s[0]] + rest[0]] + rest[1..];
        assert parts[1..] == rest[1..];
        if |rest| == 1 {
          assert s == [s[0]] + s[1..];
        } else {
          assert Join(rest, sep) == rest[0] + [sep] + Join(rest[1..], sep);
          assert s == [s[0]] + s[1..];
        }
      }
    }
  }

  /** A string without the separator is a single piece. */
  lemma {:induction false} SplitWithoutSeparator(p: string, sep: char)
    requires sep !in p
    ensures Split(p, sep) == [p]
    decreases |p|
  {
    if p != [] {
      SplitWithoutSeparator(p[1..], sep);
      assert p == [p[0]] + p[1..];
    }
  }

  /** A piece followed by the separator is split off in front of the rest. */
  lemma {:induction false} SplitAfterPiece(p: string, sep: char, t: string)
    requires sep !in p
    ensures Split(p + [sep] + t, sep) == [p] + Split(t, sep)
    decreases |p|
  {
    if p == [] {
      assert p + [sep] + t == [sep] + t;
      assert ([sep] + t)[1..] == t;
    } else {
      SplitAfterPiece(p[1..], sep, t);
      var s := p + [sep] + t;
      assert s[0] == p[0] && s[1..] == p[1..] + [sep] + t;
      assert [p[0]] + p[1..] == p;
    }
  }

  /** Splitting is also a left inverse of joining pieces that hold no separator. */
  lemma {:induction false} SplitJoin(parts: seq<string>, sep: char)
    requires |parts| >= 1
    requires forall i :: 0 <= i < |parts| ==> sep !in parts[i]
    ensures Split(Join(parts, sep), sep) == parts
    decreases |parts|
  {
    if |parts| == 1 {
      SplitWithoutSeparator(parts[0], sep);
    } else {
      SplitJoin(parts[1..], sep);
      SplitAfterPiece(parts[0], sep, Join(parts[1..], sep));
      assert [parts[0]] + parts[1..] == parts;
    }
  }

  /** The first piece is the longest separator-free prefix. */
  lemma {:induction false} FirstPiece(s: string, sep: char)
    ensures var p := Split(s, sep)[0];
      |p| <= |s| && p == s[..|p|] && sep !in p && (|p| == |s| || s[|p|] == sep)
    decreases |s|
  {
    if s != [] && s[0] != sep {
      FirstPiece(s[1..], sep);
    }
  }

  /** `arg.startswith("ref_")`, the test the start command applies first. */
  predicate IsReferralCode(code: string)
    ensures IsReferralCode(code) <==> |code| >= 4 && code == "ref_" + code[4..]
  {
    |code| >= 4 && code[..4] == "ref_"
  }

  /** `code.split("_")[1]`. */
  function ReferralTarget(code: string): (target: string)
    requires IsReferralCode(code)
    ensures '_' !in target
  {
    assert '_' == code[3];
    Split(code, '_')[1]
  }

  /**
   * The target is the text after `ref_` up to the next underscore or the end:
   * `ref_42` and `ref_42_x` both name user `42`.
   */
  lemma ReferralTargetSpec(code: string)
    requires IsReferralCode(code)
    ensures var t := ReferralTarget(code);
      4 + |t| <= |code| && t == code[4..4 + |t|] && '_' !in t
      && (4 + |t| == |code| || code[4 + |t|] == '_')
  {
    assert code == "ref" + ['_'] + code[4..];
    SplitAfterPiece("ref", '_', code[4..]);
    FirstPiece(code[4..], '_');
  }

  /** A code built from an id without underscores names exactly that id. */
  lemma ReferralTargetOfLink(uid: string)
    requires '_' !in uid
    ensures IsReferralCode("ref_" + uid) && ReferralTarget("ref_" + uid) == uid
  {
    var code := "ref_" + uid;
    assert code[..4] == "ref_" && code[4..] == uid;
    ReferralTargetSpec(code);
  }

  /** The conditions under which binding does nothing. */
  predicate BindRejected(users: map<string, User>, uid: string, target: string)
    requires uid in users
  {
    target == uid || Truthy(users[uid].referrer) || target !in users
  }

  /**
   * `handle_referral`: set the user's referrer to the code's target unless the
   * target is the user, the user already has a referrer, or the target is unknown.
   */
  function Bind(users: map<string, User>, uid: string, code: string): (r: map<string, User>)
    requires uid in users && IsReferralCode(code)
    ensures r.Keys == users.Keys
    ensures forall k :: k in users && k != uid ==> r[k] == users[k]
    ensures r[uid] == users[uid].(referrer := r[uid].referrer)
    ensures BindRejected(users, uid, ReferralTarget(code)) ==> r == users
    ensures !BindRejected(users, uid, ReferralTarget(code)) ==> r[uid].referrer == Some(ReferralTarget(code))
  {
    var target := ReferralTarget(code);
    if BindRejected(users, uid, target) then users
    else users[uid := users[uid].(referrer := Some(target))]
  }

  /** Binding keeps the user map well formed: the new referrer exists and is not the user. */
  lemma BindPreservesValid(users: map<string, User>, uid: string, code: string)
    requires UsersValid(users) && uid in users && IsReferralCode(code)
    ensures UsersValid(Bind(users, uid, code))
  {
  }

  /** A user can never become their own referrer, whatever code they present. */
  lemma NoSelfReferral(users: map<string, User>, uid: string, code: string)
    requires UsersValid(users) && uid in users && IsReferralCode(code)
    ensures Bind(users, uid, code)[uid].referrer != Some(uid)
  {
  }

  /**
   * The first successful claim wins: once a user has a referrer, any later code
   * leaves the map unchanged.
   */
  lemma FirstClaimWins(users: map<string, User>, uid: string, first: string, later: string)
    requires UsersValid(users) && uid in users && IsReferralCode(first) && IsReferralCode(later)
    ensures var bound := Bind(users, uid, first);
      bound[uid].referrer.Some? ==> Bind(bound, uid, later) == bound
  {
    var bound := Bind(users, uid, first);
    BindPreservesValid(users, uid, first);
    if bound[uid].referrer.Some? {
      assert bound[uid].referrer.value in bound;
      assert Truthy(bound[uid].referrer);
    }
  }
}
