/** The profile page (static/js/profile.js): the age shown for a date of
    birth (`calculateAge`) and the body the profile form sends
    (`initProfileForm`). Parsing the date text and reading today's date are
    outside the model: both dates arrive as their calendar fields. */
module Profile {
  import opened Results
  import opened Strings
  import Accounts

  /** The fields `getFullYear`, `getMonth` and `getDate` of a date. */
  datatype Date = Date(year: int, month: int, day: int)

  /** `a` is not earlier than `b` in the calendar. */
  predicate OnOrAfter(a: Date, b: Date)
  {
    a.year > b.year
    || (a.year == b.year && (a.month > b.month || (a.month == b.month && a.day >= b.day)))
  }

  /** Today comes before this year's birthday. */
  predicate BeforeBirthday(dob: Date, today: Date)
  {
    today.month < dob.month || (today.month == dob.month && today.day < dob.day)
  }

  /** The birthday `years` years after the date of birth. */
  function Anniversary(dob: Date, years: int): Date
  {
    Date(dob.year + years, dob.month, dob.day)
  }

  /** The age `calculateAge` computes: the difference of the years, one
      less while this year's birthday is still ahead. */
  function Age(dob: Date, today: Date): (age: int)
    ensures age == today.year - dob.year || age == today.year - dob.year - 1
    ensures age == today.year - dob.year <==> !BeforeBirthday(dob, today)
  {
    var age := today.year - dob.year;
    if BeforeBirthday(dob, today) then age - 1 else age
  }

  /** The age is the number of completed years: its anniversary has come,
      the next one has not. */
  lemma AgeIsCompletedYears(dob: Date, today: Date)
    ensures OnOrAfter(today, Anniversary(dob, Age(dob, today)))
    ensures !OnOrAfter(today, Anniversary(dob, Age(dob, today) + 1))
  {
  }

  /** Only one number of years has that property. */
  lemma CompletedYearsUnique(dob: Date, today: Date, years: int)
    requires OnOrAfter(today, Anniversary(dob, years))
    requires !OnOrAfter(today, Anniversary(dob, years + 1))
    ensures years == Age(dob, today)
  {
    AgeIsCompletedYears(dob, today);
  }

  /** On the birthday the age is the difference of the years. */
  lemma AgeOnBirthday(dob: Date, today: Date)
    requires today.month == dob.month && today.day == dob.day
    ensures Age(dob, today) == today.year - dob.year
  {
  }

  /** The age never goes down as time goes on. */
  lemma AgeMonotone(dob: Date, earlier: Date, later: Date)
    requires OnOrAfter(later, earlier)
    ensures Age(dob, earlier) <= Age(dob, later)
  {
    AgeIsCompletedYears(dob, earlier);
    AgeIsCompletedYears(dob, later);
  }

  /** The page's age field. */
  class ProfilePage {
    var ageField: string

    constructor ()
      ensures ageField == ""
    {
      ageField := "";
    }

    /** `calculateAge`: nothing for an empty date text; otherwise the age
        in completed years followed by " years". */
    method CalculateAge(dobText: string, dob: Date, today: Date)
      modifies this
      ensures dobText == "" ==> ageField == old(ageField)
      ensures dobText != "" ==> ageField == IntText(Age(dob, today)) + " years"
    {
      if dobText == "" {
        return;
      }
      var age := today.year - dob.year;
      var monthDiff := today.month - dob.month;
      if monthDiff < 0 || (monthDiff == 0 && today.day < dob.day) {
        age := age - 1;
      }
      ageField := IntText(age) + " years";
    }
  }

  /** The body the profile form sends: the name trimmed, the date and the
      gender as typed, the checked role or "student" when none is checked;
      the photo is not part of it, so the server takes its default "". */
  function SubmitBody(typedName: string, dob: string, gender: string, checkedRole: Option<string>): (body: Accounts.ProfileUpdateRequest)
    ensures body.name == JsTrim(typedName) && body.dob == dob && body.gender == gender && body.photoUrl == ""
    ensures checkedRole.None? ==> body.role == "student"
    ensures checkedRole.Some? ==> body.role == checkedRole.value
  {
    Accounts.ProfileUpdateRequest(JsTrim(typedName), dob, gender, if checkedRole.Some? then checkedRole.value else "student", "")
  }

  /** Saving the form never touches the stored photo, and without a
      checked role it sets the role to "student". */
  lemma SubmitKeepsPhoto(user: map<string, string>, typedName: string, dob: string, gender: string, checkedRole: Option<string>)
    ensures var merged := Accounts.MergeProfile(user, SubmitBody(typedName, dob, gender, checkedRole));
            ("photo_url" in merged <==> "photo_url" in user) && ("photo_url" in user ==> merged["photo_url"] == user["photo_url"])
    ensures var merged := Accounts.MergeProfile(user, SubmitBody(typedName, dob, gender, checkedRole));
            checkedRole.None? ==> "role" in merged && merged["role"] == "student"
  {
    var body := SubmitBody(typedName, dob, gender, checkedRole);
    Accounts.MergeProfileFields(user, body, "photo_url");
    Accounts.MergeProfileFields(user, body, "role");
  }

  /** A blank name leaves the stored name as it is. */
  lemma BlankNameKept(user: map<string, string>, typedName: string, dob: string, gender: string, checkedRole: Option<string>)
    requires forall i :: 0 <= i < |typedName| ==> JsSpace(typedName[i])
    ensures var merged := Accounts.MergeProfile(user, SubmitBody(typedName, dob, gender, checkedRole));
            ("name" in merged <==> "name" in user) && ("name" in user ==> merged["name"] == user["name"])
  {
    JsTrimEmpty(typedName);
    Accounts.MergeProfileFields(user, SubmitBody(typedName, dob, gender, checkedRole), "name");
  }
}
