/** The lab-booking flow of src/screens/Test.js: a list of booked labs, a
    lab's activities, a camera screen, and the safety-check analysis, with
    the handlers that move between them. */
module LabApp {
  import opened Common
  import opened Bookings
  import Analysis

  datatype Screen = BookingsScreen | ActivitiesScreen | CameraScreen | AnalysisScreen

  /** The Enter Lab button is disabled for a completed booking. */
  predicate EnterDisabled(a: Activity)
  {
    a.status == Str("COMPLETED")
  }

  class LabBookingApp {
    var currentScreen: Screen
    var selectedActivity: Option<Activity>
    var selectedLab: Option<Lab>
    var completedSteps: set<string>
    var activeStep: int
    var analysisComplete: bool
    var bookings: seq<Lab>
    var isLoading: bool
    /** Whether the analysis interval is running. */
    var timerRunning: bool
    /** Whether a completion timeout is pending. */
    var completionPending: bool

    /** The activities screen always has a lab to show (it reads
        `selectedLab.labName`); the step stays within -1 and the number of
        steps, with exactly the keys of the steps before it completed; and
        the interval runs only on the analysis screen, from step 0 on, and
        until it starts there the step is still -1. */
    predicate Valid()
      reads this
    {
      (currentScreen == ActivitiesScreen ==> selectedLab.Some?) &&
      -1 <= activeStep <= |Analysis.StepKeys| &&
      completedSteps == (if activeStep < 0 then {} else Analysis.KeysBefore(activeStep)) &&
      (timerRunning ==> currentScreen == AnalysisScreen && activeStep >= 0) &&
      (currentScreen == AnalysisScreen && !timerRunning ==> activeStep == -1)
    }

    constructor ()
      ensures Valid()
      ensures currentScreen == BookingsScreen && selectedActivity.None? && selectedLab.None?
      ensures completedSteps == {} && activeStep == -1 && !analysisComplete
      ensures bookings == [] && !isLoading && !timerRunning && !completionPending
    {
      currentScreen := BookingsScreen;
      selectedActivity := None;
      selectedLab := None;
      completedSteps := {};
      activeStep := -1;
      analysisComplete := false;
      bookings := [];
      isLoading := false;
      timerRunning := false;
      completionPending := false;
    }

    /** The fetch effect, given how the request ends: loading is over and
        the bookings are the grouped rows, or none when the request fails. */
    method FetchBookings(f: Fetch)
      requires Valid()
      modifies this
      ensures Valid()
      ensures bookings == Fetched(f) && !isLoading
      ensures f.Failed? ==> bookings == []
      ensures currentScreen == old(currentScreen) && selectedLab == old(selectedLab)
      ensures selectedActivity == old(selectedActivity) && activeStep == old(activeStep)
      ensures completedSteps == old(completedSteps) && analysisComplete == old(analysisComplete)
      ensures timerRunning == old(timerRunning) && completionPending == old(completionPending)
    {
      isLoading := true;
      if f.Failed? {
        bookings := [];
      } else {
        var apiData := if f.data.Some? then f.data.value else [];
        bookings := GroupBookings(apiData);
      }
      isLoading := false;
    }

    /** `handleEnterLab`, as a press on the Enter Lab button: a disabled
        button ignores it. */
    method PressEnterLab(activity: Activity)
      requires Valid()
      modifies this
      ensures Valid()
      ensures EnterDisabled(activity) ==>
        currentScreen == old(currentScreen) && selectedActivity == old(selectedActivity) &&
        timerRunning == old(timerRunning)
      ensures !EnterDisabled(activity) ==>
        currentScreen == CameraScreen && selectedActivity == Some(activity) && !timerRunning
      ensures selectedLab == old(selectedLab) && bookings == old(bookings) && isLoading == old(isLoading)
      ensures activeStep == old(activeStep) && completedSteps == old(completedSteps)
      ensures analysisComplete == old(analysisComplete) && completionPending == old(completionPending)
    {
      if !EnterDisabled(activity) {
        selectedActivity := Some(activity);
        currentScreen := CameraScreen;
        timerRunning := false;
      }
    }

    /** `handleLabSelect`. */
    method LabSelect(lab: Lab)
      requires Valid()
      modifies this
      ensures Valid()
      ensures selectedLab == Some(lab) && currentScreen == ActivitiesScreen && !timerRunning
      ensures selectedActivity == old(selectedActivity) && bookings == old(bookings) && isLoading == old(isLoading)
      ensures activeStep == old(activeStep) && completedSteps == old(completedSteps)
      ensures analysisComplete == old(analysisComplete) && completionPending == old(completionPending)
    {
      selectedLab := Some(lab);
      currentScreen := ActivitiesScreen;
      timerRunning := false;
    }

    /** `startAnalysis`. */
    method StartAnalysis()
      requires Valid()
      modifies this
      ensures Valid()
      ensures currentScreen == AnalysisScreen && completedSteps == {} && activeStep == -1 && !analysisComplete
      ensures !timerRunning
      ensures selectedActivity == old(selectedActivity) && selectedLab == old(selectedLab)
      ensures bookings == old(bookings) && isLoading == old(isLoading) && completionPending == old(completionPending)
    {
      currentScreen := AnalysisScreen;
      completedSteps := {};
      activeStep := -1;
      analysisComplete := false;
      timerRunning := false;
    }

    /** The effect that runs when the screen becomes 'analysis': step 0 and
        the interval started. */
    method AnalysisEffect()
      requires Valid() && currentScreen == AnalysisScreen && !timerRunning
      modifies this
      ensures Valid()
      ensures activeStep == 0 && timerRunning && completedSteps == old(completedSteps)
      ensures currentScreen == old(currentScreen) && selectedActivity == old(selectedActivity)
      ensures selectedLab == old(selectedLab) && bookings == old(bookings) && isLoading == old(isLoading)
      ensures analysisComplete == old(analysisComplete) && completionPending == old(completionPending)
    {
      assert Analysis.KeysBefore(0) == {};
      activeStep := 0;
      timerRunning := true;
    }

    /** One interval tick, with the updater shared with the analysis screen. */
    method Tick()
      requires Valid() && timerRunning
      modifies this
      ensures Valid() && timerRunning
      ensures var r := Analysis.Advance(old(activeStep), old(completedSteps));
        activeStep == r.step && completedSteps == r.completed &&
        completionPending == (old(completionPending) || r.schedulesCompletion)
      ensures currentScreen == old(currentScreen) && selectedActivity == old(selectedActivity)
      ensures selectedLab == old(selectedLab) && bookings == old(bookings) && isLoading == old(isLoading)
      ensures analysisComplete == old(analysisComplete)
    {
      Analysis.AdvanceKeepsProgress(activeStep, completedSteps);
      var r := Analysis.Advance(activeStep, completedSteps);
      activeStep := r.step;
      completedSteps := r.completed;
      if r.schedulesCompletion {
        completionPending := true;
      }
    }

    /** The one-second completion timeout fires. */
    method CompletionTimeout()
      requires Valid() && completionPending
      modifies this
      ensures Valid() && analysisComplete && !completionPending
      ensures currentScreen == old(currentScreen) && selectedActivity == old(selectedActivity)
      ensures selectedLab == old(selectedLab) && bookings == old(bookings) && isLoading == old(isLoading)
      ensures activeStep == old(activeStep) && completedSteps == old(completedSteps)
      ensures timerRunning == old(timerRunning)
    {
      analysisComplete := true;
      completionPending := false;
    }

    /** `resetToBookings`: back to the list with every selection and the
        analysis cleared; leaving the analysis screen stops the interval. */
    method ResetToBookings()
      requires Valid()
      modifies this
      ensures Valid()
      ensures currentScreen == BookingsScreen && selectedActivity.None? && selectedLab.None?
      ensures completedSteps == {} && activeStep == -1 && !analysisComplete && !timerRunning
      ensures bookings == old(bookings) && isLoading == old(isLoading) && completionPending == old(completionPending)
    {
      currentScreen := BookingsScreen;
      selectedActivity := None;
      selectedLab := None;
      completedSteps := {};
      activeStep := -1;
      analysisComplete := false;
      timerRunning := false;
    }

    /** `backToLabs`: back to the list, clearing only the lab. */
    method BackToLabs()
      requires Valid()
      modifies this
      ensures Valid()
      ensures currentScreen == BookingsScreen && selectedLab.None? && !timerRunning
      ensures selectedActivity == old(selectedActivity) && bookings == old(bookings) && isLoading == old(isLoading)
      ensures activeStep == old(activeStep) && completedSteps == old(completedSteps)
      ensures analysisComplete == old(analysisComplete) && completionPending == old(completionPending)
    {
      currentScreen := BookingsScreen;
      selectedLab := None;
      timerRunning := false;
    }
  }
}
