/** Email-address input checks: the address pattern and its availability. */
module Emails {
  import opened Common
  import opened Store

  /** The characters a regular-expression `.` does not match (no `s` flag). */
  predicate IsLineTerminator(c: char)
  {
    c == '\n' || c == '\r' || c as int == 0x2028 || c as int == 0x2029
  }

  /**
   * What `/^.+@.+\..+$/` accepts: a string free of line terminators that
   * splits as a non-empty part, an '@', a non-empty part, a '.', and a
   * non-empty part. `.` also matches '@' and '.', so any such split will do.
   */
  ghost predicate MatchesEmailPattern(s: string)
  {
    && (forall k :: 0 <= k < |s| ==> !IsLineTerminator(s[k]))
    && exists i, j :: 0 < i && i + 1 < j < |s| - 1 && s[i] == '@' && s[j] == '.'
  }

  /** The first '@' at or after `from`. */
  function FirstAt(s: string, from: nat): (r: Option<nat>)
    ensures r.Some? ==> from <= r.value < |s| && s[r.value] == '@'
                        && forall k :: from <= k < r.value ==> s[k] != '@'
    ensures r.None? ==> forall k :: from <= k < |s| ==> s[k] != '@'
    decreases |s| - from
  {
    if from >= |s| then None
    else if s[from] == '@' then Some(from)
    else FirstAt(s, from + 1)
  }

  /** The last '.' at or before `upTo`. */
  function LastDot(s: string, upTo: int): (r: Option<nat>)
    requires upTo < |s|
    ensures r.Some? ==> r.value <= upTo && s[r.value] == '.'
                        && forall k :: r.value < k <= upTo ==> s[k] != '.'
    ensures r.None? ==> forall k :: 0 <= k <= upTo ==> s[k] != '.'
    decreases upTo + 1
  {
    if upTo < 0 then None
    else if s[upTo] == '.' then Some(upTo)
    else LastDot(s, upTo - 1)
  }

  /**
   * The pattern holds exactly when the earliest usable '@' comes at least two
   * places before the latest usable '.'.
   */
  lemma {:induction false} PatternByScan(s: string)
    ensures MatchesEmailPattern(s) <==>
              && (forall k :: 0 <= k < |s| ==> !IsLineTerminator(s[k]))
              && FirstAt(s, 1).Some? && LastDot(s, |s| - 2).Some?
              && FirstAt(s, 1).value + 1 < LastDot(s, |s| - 2).value
  {
    var at, dot := FirstAt(s, 1), LastDot(s, |s| - 2);
    if exists i, j :: 0 < i && i + 1 < j < |s| - 1 && s[i] == '@' && s[j] == '.' {
      var i, j :| 0 < i && i + 1 < j < |s| - 1 && s[i] == '@' && s[j] == '.';
      assert at.Some? && at.value <= i;
      assert dot.Some? && j <= dot.value;
    }
    if at.Some? && dot.Some? && at.value + 1 < dot.value {
      assert 0 < at.value && at.value + 1 < dot.value < |s| - 1 && s[at.value] == '@' && s[dot.value] == '.';
    }
  }

  /** `verifyEmailInput`: the address pattern, and fewer than 256 characters. */
  function VerifyEmailInput(email: string): (ok: bool)
    ensures ok <==> MatchesEmailPattern(email) && |email| < 256
    ensures |email| >= 256 ==> !ok
    ensures (exists k :: 0 <= k < |email| && IsLineTerminator(email[k])) ==> !ok
    ensures ok ==> exists i, j :: 0 < i && i + 1 < j < |email| - 1 && email[i] == '@' && email[j] == '.'
  {
    PatternByScan(email);
    var at, dot := FirstAt(email, 1), LastDot(email, |email| - 2);
    && (forall k | 0 <= k < |email| :: !IsLineTerminator(email[k]))
    && at.Some? && dot.Some? && at.value + 1 < dot.value
    && |email| < 256
  }

  /** The number of users holding an email address (`user.count`). */
  function CountUsersWithEmail(users: map<Id, UserRow>, email: string): nat
  {
    |set id | id in users && users[id].email == email|
  }

  /** `checkEmailAvailability`: no user holds the address. */
  function CheckEmailAvailability(db: Database, email: string): (available: bool)
    reads db
    ensures available <==> !EmailTaken(db.users, email)
  {
    var holders := set id | id in db.users && db.users[id].email == email;
    assert EmailTaken(db.users, email) ==>
             var id :| id in db.users && db.users[id].email == email; id in holders;
    CountUsersWithEmail(db.users, email) == 0
  }
}
