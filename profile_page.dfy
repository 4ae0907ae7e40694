/**
 * The list and form helpers of the SmartTrack profile page: adding and
 * removing skills, and the checks made before a password change is sent.
 */
module ProfilePage {
  import opened Wrappers
  import Text
  import UserController
  import ApplicationSchema

  predicate NoDuplicates(skills: seq<string>) {
    forall i, j :: 0 <= i < j < |skills| ==> skills[i] != skills[j]
  }

  /** The skills being edited and the text of the "new skill" input. */
  datatype SkillEditor = SkillEditor(skills: seq<string>, newSkill: string)

  /**
   * handleAddSkill: the trimmed input is appended when it is non-empty and
   * not already listed, and only then is the input cleared; otherwise
   * nothing changes.
   */
  function AddSkill(e: SkillEditor): (r: SkillEditor)
    ensures var t := Text.Trim(e.newSkill);
            var added := t != [] && t !in e.skills;
            && (added ==> r == SkillEditor(e.skills + [t], ""))
            && (!added ==> r == e)
  {
    var t := Text.Trim(e.newSkill);
    if t != [] && t !in e.skills then SkillEditor(e.skills + [t], "") else e
  }

  /** Adding keeps a duplicate-free list duplicate-free, and what it adds is the trimmed, non-empty input. */
  lemma AddSkillKeepsNoDuplicates(e: SkillEditor)
    requires NoDuplicates(e.skills)
    ensures NoDuplicates(AddSkill(e).skills)
    ensures AddSkill(e).skills != e.skills ==> AddSkill(e).skills[|e.skills|] == Text.Trim(e.newSkill) != []
  {
    var r := AddSkill(e).skills;
    if r != e.skills {
      var t := Text.Trim(e.newSkill);
      forall i, j | 0 <= i < j < |r|
        ensures r[i] != r[j]
      {
        assert r[i] == e.skills[i];
        if j == |e.skills| {
          assert r[j] == t && r[i] in e.skills;
        } else {
          assert r[j] == e.skills[j];
        }
      }
    }
  }

  /** handleRemoveSkill: `filter(skill => skill !== x)`. */
  function RemoveSkill(skills: seq<string>, x: string): (r: seq<string>)
    ensures x !in r
    ensures |r| <= |skills|
    ensures forall s :: s in r ==> s in skills
    ensures forall s :: s in skills && s != x ==> s in r
    ensures x !in skills ==> r == skills
  {
    if skills == [] then []
    else (if skills[0] == x then [] else [skills[0]]) + RemoveSkill(skills[1..], x)
  }

  /**
   * Removal works element by element: removing from a concatenation removes
   * from each part, so the kept skills stay in their original order.
   */
  lemma {:induction false} RemoveDistributes(a: seq<string>, b: seq<string>, x: string)
    ensures RemoveSkill(a + b, x) == RemoveSkill(a, x) + RemoveSkill(b, x)
  {
    if a == [] {
      assert a + b == b;
    } else {
      assert (a + b)[1..] == a[1..] + b;
      RemoveDistributes(a[1..], b, x);
    }
  }

  /** Removing a skill just added restores the list as it was. */
  lemma {:induction false} AddThenRemove(e: SkillEditor)
    requires AddSkill(e).skills != e.skills
    ensures RemoveSkill(AddSkill(e).skills, Text.Trim(e.newSkill)) == e.skills
  {
    var t := Text.Trim(e.newSkill);
    RemoveDistributes(e.skills, [t], t);
    assert RemoveSkill([t], t) == [];
  }

  /** What the password form does on submit: report a mismatch, report a short password, or send the request. */
  datatype PasswordCheck = Mismatch | TooShort | Send

  const MismatchMessage := "New passwords do not match"
  const TooShortMessage := "New password must be at least 6 characters"

  /** The checks of handleChangePassword, in order: the two new passwords agree, then the length. */
  function CheckPasswordForm(newPassword: string, confirmPassword: string): (r: PasswordCheck)
    ensures newPassword != confirmPassword ==> r == Mismatch
    ensures r == Send <==> newPassword == confirmPassword && Text.Utf16Length(newPassword) >= UserController.MinPasswordLength
  {
    if newPassword != confirmPassword then Mismatch
    else if Text.Utf16Length(newPassword) < 6 then TooShort
    else Send
  }

  /**
   * A request the form sends is never refused by the server's own field
   * checks: with a current password filled in, the server goes on to look
   * up the user and check that password.
   */
  lemma {:induction false} SentFormPassesServerChecks(users: map<ApplicationSchema.Id, UserController.User>,
                                                      caller: ApplicationSchema.Id, currentPassword: string,
                                                      newPassword: string, confirmPassword: string)
    requires CheckPasswordForm(newPassword, confirmPassword) == Send
    requires currentPassword != ""
    ensures var s := UserController.ChangePasswordStep(users, caller, Some(currentPassword), Some(newPassword));
            s.reply != Err(UserController.MissingPasswords) && s.reply != Err(UserController.PasswordTooShort)
  {
    assert newPassword != [] by {
      assert Text.Utf16Length(newPassword) >= 6;
    }
  }
}
