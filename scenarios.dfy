/**
 * A session with two reports. After a successful submission the submit
 * button stays disabled, and nothing on the way to the next report's
 * confirmation view enables it again, so the second report cannot be sent.
 */
module Scenarios {
  import opened Report
  import opened Wizard

  /**
   * A user starts a report, takes a photo, describes it, pins it on the map
   * and reaches the confirmation view. The submit button is not touched.
   */
  method FillInReport(app: App)
    requires app.Valid() && !app.submitting
    modifies app
    ensures app.Valid() && app.currentView == Confirm && app.reportData.location.Some?
    ensures app.btnSubmitDisabled == old(app.btnSubmitDisabled) && !app.submitting
  {
    app.StartNewReport();
    var check := app.HandlePhotoSelect(Some(File("image/jpeg", 2000000)));
    app.PhotoDecoded("data:image/jpeg;base64,");
    app.PressNextPhoto();
    app.HandleDescriptionInput("Bache grande en la avenida");
    app.PressNextDescription();
    app.MapClick(LatLng(-17.3935, -66.1570));
    app.PressNextLocation();
  }

  /** As written: the first report is sent and accepted; pressing submit on the second sends nothing. */
  method SecondReportIsNeverSent() returns (app: App, second: Option<SubmitFailure>)
    ensures app.Valid() && app.currentView == Confirm && app.reportData.location.Some?
    ensures app.btnSubmitDisabled && second == None && !app.submitting
  {
    app := new App(true);
    FillInReport(app);
    var first := app.PressSubmit();
    assert app.submitting;
    var settled := app.SubmitSettled(Responded(true, Json(None)));
    assert app.currentView == Success;
    FillInReport(app);
    second := app.PressSubmit();
  }

  /** With submit re-enabled when the attempt settles, the second report's request goes out. */
  method SecondReportIsSentWhenCorrected() returns (app: App, second: Option<SubmitFailure>)
    ensures app.Valid() && app.reportData.location.Some?
    ensures second == None && app.submitting && app.loadingVisible
  {
    app := new App(true);
    FillInReport(app);
    var first := app.PressSubmit();
    var settled := app.SubmitSettledCorrected(Responded(true, Json(None)));
    assert app.currentView == Success;
    FillInReport(app);
    second := app.PressSubmit();
  }
}
