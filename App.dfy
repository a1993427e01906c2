/** The tracker component's state and the handlers that change it. Each handler is stated
    against the pure operation that specifies it, and leaves every other field as it was. */
module App {
  import opened Options
  import opened Catalog
  import opened ProgressStore
  import opened Aggregation
  import opened Scheduler
  import opened Profiles
  import opened Email

  /** The two kinds of reset the confirmation dialog can be asking about. */
  datatype ResetKind = ProgressReset | SchedulesReset

  /** Every state field of the tracker, as one value. `outbox` holds the requests handed to
      the mail service, oldest first. */
  datatype View = View(
    data: Progress,
    lastCompleted: Option<(string, string)>,
    confirm: Option<ResetKind>,
    tasks: seq<Task>,
    newTask: TaskForm,
    profile: Profile,
    backupEmail: string,
    emailStatus: EmailStatus,
    outbox: seq<EmailRequest>)

  class Tracker {
    var data: Progress
    var lastCompleted: Option<(string, string)>
    var confirm: Option<ResetKind>
    var tasks: seq<Task>
    var newTask: TaskForm
    var profile: Profile
    var backupEmail: string
    var emailStatus: EmailStatus
    var outbox: seq<EmailRequest>

    function Current(): View
      reads this
    {
      View(data, lastCompleted, confirm, tasks, newTask, profile, backupEmail, emailStatus, outbox)
    }

    /** The component as it mounts: whatever could be loaded from storage, and the empty
        progress, the empty schedule and the default profile where nothing could. */
    constructor(storedData: Option<Progress>, storedTasks: Option<seq<Task>>, storedProfile: Option<Profile>)
      ensures data == storedData.GetOr(Empty) && tasks == storedTasks.GetOr([])
      ensures profile == LoadProfile(storedProfile)
      ensures lastCompleted == None && confirm == None && newTask == BlankForm
      ensures backupEmail == "" && emailStatus == Idle && outbox == []
    {
      data := storedData.GetOr(Empty);
      lastCompleted := None;
      confirm := None;
      tasks := storedTasks.GetOr([]);
      newTask := BlankForm;
      profile := LoadProfile(storedProfile);
      backupEmail := "";
      emailStatus := Idle;
      outbox := [];
    }

    /** `toggleChapter(subject, chapter)`: the chapter's entry is created under its subject if
        needed and set to the negation of its reading; `isCompleting` says whether it is now
        completed, and only then is it remembered as the last completed chapter. */
    method ToggleChapter(subject: string, chapter: string) returns (isCompleting: bool)
      modifies this
      ensures isCompleting == !Done(old(data), subject, chapter)
      ensures isCompleting == Done(data, subject, chapter)
      ensures Current() == old(Current()).(
                data := Toggle(old(data), subject, chapter),
                lastCompleted := if isCompleting then Some((subject, chapter)) else old(lastCompleted))
    {
      var updated := data;
      if subject !in updated {
        updated := updated[subject := map[]];
      }
      isCompleting := !(chapter in updated[subject] && updated[subject][chapter]);
      updated := updated[subject := updated[subject][chapter := isCompleting]];
      data := updated;
      if isCompleting {
        lastCompleted := Some((subject, chapter));
      }
    }

    /** `resetProgress`: no chapter is completed any more, and the dialog closes. */
    method ResetProgress()
      modifies this
      ensures Current() == old(Current()).(data := Empty, confirm := None)
    {
      data := Empty;
      confirm := None;
    }

    /** `resetSchedules`: the schedule is emptied, and the dialog closes. */
    method ResetSchedules()
      modifies this
      ensures Current() == old(Current()).(tasks := [], confirm := None)
    {
      tasks := [];
      confirm := None;
    }

    /** `handleResetConfirm(kind)`: the dialog opens, asking about that kind of reset. */
    method RequestReset(kind: ResetKind)
      modifies this
      ensures Current() == old(Current()).(confirm := Some(kind))
    {
      confirm := Some(kind);
    }

    /** `cancelReset`: the dialog closes and nothing is reset. */
    method CancelReset()
      modifies this
      ensures Current() == old(Current()).(confirm := None)
    {
      confirm := None;
    }

    /** The dialog's confirm button, which exists only while the dialog is open: the progress
        reset when the dialog asks about progress, the schedule reset otherwise. */
    method ConfirmReset()
      requires confirm.Some?
      modifies this
      ensures old(confirm) == Some(ProgressReset) ==>
                Current() == old(Current()).(data := Empty, confirm := None)
      ensures old(confirm) == Some(SchedulesReset) ==>
                Current() == old(Current()).(tasks := [], confirm := None)
    {
      if confirm == Some(ProgressReset) {
        ResetProgress();
      } else {
        ResetSchedules();
      }
    }

    /** `addTask()`, with the fresh id the clock would supply passed in. */
    method AddTask(id: int)
      modifies this
      ensures Current() == old(Current()).(
                tasks := Scheduler.AddTask(old(tasks), old(newTask), id).0,
                newTask := Scheduler.AddTask(old(tasks), old(newTask), id).1)
    {
      var (t, f) := Scheduler.AddTask(tasks, newTask, id);
      tasks, newTask := t, f;
    }

    /** `removeTask(id)`. */
    method RemoveTask(id: int)
      modifies this
      ensures Current() == old(Current()).(tasks := Scheduler.RemoveTask(old(tasks), id))
    {
      tasks := Scheduler.RemoveTask(tasks, id);
    }

    /** The in-place sort the schedule list undergoes when it is shown: the same tasks, now in
        display order. */
    method SortSchedule()
      modifies this
      ensures InDisplayOrder(tasks) && multiset(tasks) == multiset(old(tasks))
      ensures Current() == old(Current()).(tasks := tasks)
    {
      var a := new Task[|tasks|](i requires 0 <= i < |tasks| reads this => tasks[i]);
      assert a[..] == tasks;
      SortForDisplay(a);
      tasks := a[..];
    }

    /** `updateProfile(field, value)`. */
    method UpdateProfile(field: Field, value: string)
      modifies this
      ensures Current() == old(Current()).(profile := Profiles.UpdateProfile(old(profile), field, value))
    {
      profile := Profiles.UpdateProfile(profile, field, value);
    }

    /** Typing into the form's address field. */
    method SetBackupEmail(value: string)
      modifies this
      ensures Current() == old(Current()).(backupEmail := value)
    {
      backupEmail := value;
    }

    /** `handleEmailSubmit`: `sendProgressByEmail` on the chosen address, with the summary of
        the current progress. While a send is in flight the submit button is disabled, so
        nothing happens. */
    method SubmitEmail()
      modifies this
      ensures old(emailStatus.sending) ==> Current() == old(Current())
      ensures !old(emailStatus.sending) ==>
                var r := SendProgress(ChooseAddress(old(backupEmail), old(profile).email),
                                      old(profile).name, SubjectData(SUBJECTS, old(data)));
                Current() == old(Current()).(
                  emailStatus := r.0,
                  outbox := old(outbox) + (if r.1.Some? then [r.1.value] else []))
    {
      if !emailStatus.sending {
        var r := SendProgress(ChooseAddress(backupEmail, profile.email), profile.name,
                              SubjectData(SUBJECTS, data));
        emailStatus := r.0;
        if r.1.Some? {
          outbox := outbox + [r.1.value];
        }
      }
    }

    /** The mail service's answer to the request in flight. */
    method EmailAnswered(succeeded: bool)
      modifies this
      ensures Current() == old(Current()).(emailStatus := Delivered(succeeded))
    {
      emailStatus := Delivered(succeeded);
    }

    /** The success message's timeout running out. */
    method SuccessMessageExpired()
      modifies this
      ensures Current() == old(Current()).(emailStatus := Idle)
    {
      emailStatus := Idle;
    }
  }

  /** A submitted form with no address anywhere sends nothing and shows the error. */
  method SubmitWithoutAddress(t: Tracker) returns (sent: bool)
    requires !t.emailStatus.sending && t.backupEmail == "" && t.profile.email == ""
    modifies t
    ensures !sent && t.outbox == old(t.outbox) && t.emailStatus == MissingAddress
  {
    var before := |t.outbox|;
    t.SubmitEmail();
    sent := |t.outbox| > before;
  }

  /** Opening the dialog for a progress reset and confirming it clears the progress and leaves
      the schedule alone. */
  method ConfirmedProgressReset(t: Tracker)
    modifies t
    ensures t.data == Empty && t.confirm == None && t.tasks == old(t.tasks)
    ensures OverallProgress(SUBJECTS, t.data).completed == 0
  {
    t.RequestReset(ProgressReset);
    t.ConfirmReset();
    ResetClearsProgress(SUBJECTS);
  }
}
