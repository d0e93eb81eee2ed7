/** A catalogue card: the badge classes for a course's level and category,
    and the card's enrollment state, which the status query sets and the
    enroll/unenroll button toggles. The network calls are parameters: each
    method receives the answer (or failure) of the call it makes. */
module CourseCard {
  import opened ArrayOps
  import opened CourseSchema
  import opened EnrollmentSchema
  import opened MockData

  const Gray := "bg-gray-100 text-gray-800"
  /** The categories with a badge colour of their own. */
  const ColouredCategories: seq<string> := ["Programming", "Design", "Business", "Marketing"]

  /** `getLevelColor`: one badge per schema level, the primary badge for
      anything else. */
  function LevelColor(level: string): (cls: string)
    ensures cls == "badge-primary" <==> level !in Levels
    ensures level == "Beginner" ==> cls == "badge-success"
    ensures level == "Intermediate" ==> cls == "badge-warning"
    ensures level == "Advanced" ==> cls == "badge-danger"
  {
    if level == "Beginner" then "badge-success"
    else if level == "Intermediate" then "badge-warning"
    else if level == "Advanced" then "badge-danger"
    else "badge-primary"
  }

  /** The three schema levels get three different badges. */
  lemma LevelColorsDistinct()
    ensures forall i, j :: 0 <= i < j < |Levels| ==> LevelColor(Levels[i]) != LevelColor(Levels[j])
  {
  }

  /** `getCategoryColor`: Programming, Design, Business and Marketing have
      their own classes; Technology and every other value share the gray. */
  function CategoryColor(category: string): (cls: string)
    ensures cls == Gray <==> category !in ColouredCategories
  {
    if category == "Programming" then "bg-blue-100 text-blue-800"
    else if category == "Design" then "bg-purple-100 text-purple-800"
    else if category == "Business" then "bg-green-100 text-green-800"
    else if category == "Marketing" then "bg-orange-100 text-orange-800"
    else if category == "Technology" then Gray
    else Gray
  }

  /** The four coloured categories are told apart; 'Technology' and 'Other',
      both schema categories, look the same. */
  lemma CategoryColors()
    ensures forall i, j :: 0 <= i < j < |ColouredCategories| ==>
              CategoryColor(ColouredCategories[i]) != CategoryColor(ColouredCategories[j])
    ensures CategoryColor("Technology") == CategoryColor("Other") == Gray
    ensures "Technology" in Categories && "Other" in Categories
  {
  }

  /** What an `enroll` or `unenroll` call comes back with: the record the
      answer carries (for an enroll), or the failure with the error message
      of the answer, if it has one. */
  datatype Call = Answered(data: Option<Enrollment>) | Failed(error: Option<string>)

  /** What a status query comes back with. */
  datatype StatusCall = StatusAnswered(reply: StatusReply) | StatusFailed

  datatype Request = EnrollRequest | UnenrollRequest

  datatype Toast = Succeeded(text: string) | Errored(text: string)

  /** The card's visible enrollment state. */
  datatype CardView = CardView(isEnrolled: bool, enrollmentStatus: Option<Enrollment>)

  const Fallback := "An error occurred"

  /** The button press: an enrolled card asks to unenroll, another to
      enroll. On success the flag flips, and the status becomes null after
      an unenroll and the returned record after an enroll; on failure the
      state is kept. */
  function Toggled(v: CardView, answer: Call): (w: CardView)
    ensures answer.Failed? ==> w == v
    ensures answer.Answered? ==> w.isEnrolled == !v.isEnrolled
    ensures answer.Answered? && v.isEnrolled ==> w.enrollmentStatus == None
    ensures answer.Answered? && !v.isEnrolled ==> w.enrollmentStatus == answer.data
  {
    match answer
    case Failed(_) => v
    case Answered(data) => if v.isEnrolled then CardView(false, None) else CardView(true, data)
  }

  /** The notice shown: a success text for the request made, or the
      answer's error message, falling back to a generic text when it has
      none or it is empty. */
  function ToastFor(v: CardView, answer: Call): (t: Toast)
    ensures answer.Answered? <==> t.Succeeded?
    ensures answer.Answered? ==>
              t == Succeeded(if v.isEnrolled then "Successfully unenrolled from course!" else "Successfully enrolled in course!")
    ensures answer.Failed? && answer.error.Some? && answer.error.value != "" ==> t == Errored(answer.error.value)
    ensures answer.Failed? && (answer.error.None? || answer.error.value == "") ==> t == Errored(Fallback)
  {
    match answer
    case Answered(_) =>
      Succeeded(if v.isEnrolled then "Successfully unenrolled from course!" else "Successfully enrolled in course!")
    case Failed(error) =>
      Errored(if error.Some? && error.value != "" then error.value else Fallback)
  }

  /** Two successful presses from a card that is not enrolled end where
      they started: not enrolled, status null. */
  lemma ToggleTwiceRestores(e: Option<Enrollment>, ok: Option<Enrollment>)
    ensures Toggled(Toggled(CardView(false, None), Answered(e)), Answered(ok)) == CardView(false, None)
  {
  }

  /** The state one card keeps. */
  class CourseCardState {
    var isEnrolled: bool
    var isLoading: bool
    var enrollmentStatus: Option<Enrollment>

    constructor()
      ensures !isEnrolled && !isLoading && enrollmentStatus.None?
    {
      isEnrolled := false;
      isLoading := false;
      enrollmentStatus := None;
    }

    function View(): CardView
      reads this
    {
      CardView(isEnrolled, enrollmentStatus)
    }

    /** `checkEnrollmentStatus`: the answer overwrites both fields; a failed
        query changes nothing. */
    method CheckEnrollmentStatus(answer: StatusCall)
      modifies this
      ensures answer.StatusAnswered? ==> View() == CardView(answer.reply.isEnrolled, answer.reply.enrollment)
      ensures answer.StatusFailed? ==> View() == old(View())
      ensures isLoading == old(isLoading)
    {
      if answer.StatusAnswered? {
        isEnrolled := answer.reply.isEnrolled;
        enrollmentStatus := answer.reply.enrollment;
      }
    }

    /** `handleEnrollment`: sends the request the current state calls for,
        applies its answer, and clears the loading flag on either path. */
    method HandleEnrollment(answer: Call) returns (sent: Request, toast: Toast)
      modifies this
      ensures sent == (if old(isEnrolled) then UnenrollRequest else EnrollRequest)
      ensures View() == Toggled(old(View()), answer)
      ensures toast == ToastFor(old(View()), answer)
      ensures !isLoading
    {
      isLoading := true;
      sent := if isEnrolled then UnenrollRequest else EnrollRequest;
      if answer.Answered? {
        if isEnrolled {
          isEnrolled := false;
          enrollmentStatus := None;
          toast := Succeeded("Successfully unenrolled from course!");
        } else {
          isEnrolled := true;
          enrollmentStatus := answer.data;
          toast := Succeeded("Successfully enrolled in course!");
        }
      } else {
        var message := if answer.error.Some? && answer.error.value != "" then answer.error.value else Fallback;
        toast := Errored(message);
      }
      isLoading := false;
    }
  }
}
