/**
 * The report wizard of the front end: the current view, the draft, the map
 * and its marker, the location method, the enabled state of the four gated
 * buttons, the loading indicator, the confirmation modal, and the
 * asynchronous file read, geolocation fix and submission that can be
 * outstanding. Each handler of the page is a method of `App`; each browser
 * callback that completes an asynchronous request is a method of its own.
 */
module Wizard {
  import opened Report

  datatype View = Home | Photo | Description | Location | Confirm | Success

  datatype LocationMethod = Auto | OnMap

  /** The content of a location status line (the coordinate text formatting is not modelled). */
  datatype StatusLine = Blank | Unsupported | Locating | Located(at: LatLng) | Failed(message: string)

  /** What a confirmation modal runs when confirmed; the only caller passes "go home". */
  datatype ConfirmAction = ReturnHome

  /** The body of a response that is not ok, as `response.json()` reads it. */
  datatype ErrorBody = Json(error: Option<string>) | NotJson(parseError: string)

  /** How a sent request ends: `fetch` rejects, or a response arrives. */
  datatype FetchOutcome = Rejected(message: string) | Responded(ok: bool, body: ErrorBody)

  /** Why a submission attempt failed, as the catch block sees it. */
  datatype SubmitFailure =
    | MissingLocation          // reading `latitude` of a null location throws before any request
    | RequestFailed(message: string)

  /** The W3C Geolocation API error codes. */
  const PermissionDenied: int := 1
  const PositionUnavailable: int := 2
  const Timeout: int := 3

  const GeolocationErrorPrefix := "\U{274C} No se pudo obtener tu ubicaci\U{F3}n. "
  const DefaultSubmitError := "Error al enviar el reporte"

  /**
   * The status text of the geolocation error callback: a fixed prefix, then
   * a reason for each of the three known codes, and nothing more for any
   * other code. The three reasons are distinct.
   */
  function GeolocationErrorMessage(code: int): (m: string)
    ensures |GeolocationErrorPrefix| <= |m| && m[..|GeolocationErrorPrefix|] == GeolocationErrorPrefix
    ensures m == GeolocationErrorPrefix <==> code !in {PermissionDenied, PositionUnavailable, Timeout}
    ensures code == PermissionDenied ==> m == GeolocationErrorPrefix + "Permiso denegado."
    ensures code == PositionUnavailable ==> m == GeolocationErrorPrefix + "Posici\U{F3}n no disponible."
    ensures code == Timeout ==> m == GeolocationErrorPrefix + "Tiempo de espera agotado."
  {
    GeolocationErrorPrefix +
      if code == PermissionDenied then "Permiso denegado."
      else if code == PositionUnavailable then "Posici\U{F3}n no disponible."
      else if code == Timeout then "Tiempo de espera agotado."
      else ""
  }

  /**
   * The message of the error thrown for a response that is not ok: the
   * body's `error` field when it is a non-empty string, the default text when
   * it is missing or empty, and the parse error when the body is not JSON.
   */
  function ResponseErrorMessage(body: ErrorBody): (m: string)
    ensures body.Json? && body.error.Some? && body.error.value != "" ==> m == body.error.value
    ensures body.Json? && (body.error.None? || body.error.value == "") ==> m == DefaultSubmitError
    ensures body.NotJson? ==> m == body.parseError
  {
    match body
    case NotJson(parseError) => parseError
    case Json(error) =>
      if error.Some? && error.value != "" then error.value else DefaultSubmitError
  }

  /** The markers on the map: the one `marker` refers to, or none. */
  function MarkerLayers(marker: Option<LatLng>): seq<LatLng>
  {
    if marker.Some? then [marker.value] else []
  }

  /**
   * `map.removeLayer(m)`: one layer equal to `m` leaves the map and nothing
   * else changes (which one: `RemoveLayerRemovesFirst`).
   */
  function RemoveLayer(layers: seq<LatLng>, m: LatLng): (r: seq<LatLng>)
    ensures multiset(r) == multiset(layers) - multiset{m}
    ensures m in layers ==> |r| == |layers| - 1
    ensures m !in layers ==> r == layers
  {
    if layers == [] then []
    else if layers[0] == m then
      assert layers == [layers[0]] + layers[1..];
      layers[1..]
    else
      assert layers == [layers[0]] + layers[1..];
      [layers[0]] + RemoveLayer(layers[1..], m)
  }

  /** The layer removed is the first one equal to `m`; the rest keep their order. */
  lemma {:induction false} RemoveLayerRemovesFirst(layers: seq<LatLng>, m: LatLng, i: nat)
    requires i < |layers| && layers[i] == m && m !in layers[..i]
    ensures RemoveLayer(layers, m) == layers[..i] + layers[i + 1..]
  {
    if i > 0 {
      assert layers[0] in layers[..i];
      assert layers[1..][..i - 1] == layers[1..i];
      assert m !in layers[1..][..i - 1] by {
        forall x | x in layers[1..][..i - 1] ensures x in layers[..i] {
          var k :| 0 <= k < i - 1 && layers[1..][..i - 1][k] == x;
          assert layers[..i][k + 1] == x;
        }
      }
      RemoveLayerRemovesFirst(layers[1..], m, i - 1);
      assert layers[..i] == [layers[0]] + layers[1..][..i - 1];
      assert layers[i + 1..] == layers[1..][i..];
    }
  }

  /** The actions a confirm click runs: one per open modal that has an action. */
  function Actions(sessions: seq<Option<ConfirmAction>>): seq<ConfirmAction>
  {
    if sessions == [] then []
    else (if sessions[0].Some? then [sessions[0].value] else []) + Actions(sessions[1..])
  }

  class App {
    /** Whether the browser offers `navigator.geolocation`. */
    const geolocationSupported: bool

    var currentView: View
    var reportData: ReportData
    /** Whether the Leaflet map has been created (`map` is not null). */
    var hasMap: bool
    /** The marker that `marker` refers to. */
    var marker: Option<LatLng>
    /** The markers added to the map and not removed. */
    var mapLayers: seq<LatLng>
    var currentLocationMethod: LocationMethod
    var btnNextPhotoDisabled: bool
    var btnNextDescriptionDisabled: bool
    var btnNextLocationDisabled: bool
    var btnSubmitDisabled: bool
    var loadingVisible: bool
    var locationStatus: StatusLine
    var mapStatus: StatusLine
    var modalVisible: bool
    /**
     * One entry per `showConfirmModal` call whose three listeners (confirm
     * button, cancel button, overlay) are still attached, holding its `onConfirm`.
     */
    var modalSessions: seq<Option<ConfirmAction>>
    /** Every `onConfirm` run so far, in order. */
    ghost var confirmed: seq<ConfirmAction>
    /** File reads started by `handlePhotoSelect` whose `onload` has not run. */
    var pendingReads: nat
    /** Geolocation queries started whose callback has not run. */
    var pendingFixes: nat
    /** `handleSubmit` is waiting for its request. */
    var submitting: bool

    /**
     * The state the handlers keep: at most the one referenced marker is on
     * the map, and only once a map exists; each next button is enabled only
     * when the draft holds what its step collects; while a request is out,
     * submit is disabled; the loading indicator shows exactly while a request
     * is out; the modal shows exactly while some modal's listeners are attached.
     */
    ghost predicate Valid()
      reads this
    {
      && (marker.Some? ==> hasMap)
      && mapLayers == MarkerLayers(marker)
      && (!btnNextPhotoDisabled ==> reportData.photoURL.Some?)
      && (!btnNextDescriptionDisabled ==> |reportData.description| >= MinDescriptionLength)
      && (!btnNextLocationDisabled ==> reportData.location.Some?)
      && (submitting ==> btnSubmitDisabled)
      && (loadingVisible <==> submitting)
      && (modalVisible <==> modalSessions != [])
    }

    /** The page after `DOMContentLoaded`: module state as initialised, the home view shown. */
    constructor (geolocationSupported: bool)
      ensures Valid()
      ensures this.geolocationSupported == geolocationSupported
      ensures currentView == Home && reportData == EmptyReport
      ensures !hasMap && marker == None && mapLayers == [] && currentLocationMethod == Auto
      ensures btnNextPhotoDisabled && btnNextDescriptionDisabled && btnNextLocationDisabled
      ensures !btnSubmitDisabled && !loadingVisible
      ensures locationStatus == Blank && mapStatus == Blank
      ensures !modalVisible && modalSessions == [] && confirmed == []
      ensures pendingReads == 0 && pendingFixes == 0 && !submitting
    {
      this.geolocationSupported := geolocationSupported;
      currentView := Home;
      reportData := EmptyReport;
      hasMap := false;
      marker := None;
      mapLayers := [];
      currentLocationMethod := Auto;
      btnNextPhotoDisabled := true;
      btnNextDescriptionDisabled := true;
      btnNextLocationDisabled := true;
      btnSubmitDisabled := false;
      loadingVisible := false;
      locationStatus := Blank;
      mapStatus := Blank;
      modalVisible := false;
      modalSessions := [];
      confirmed := [];
      pendingReads := 0;
      pendingFixes := 0;
      submitting := false;
    }

    /** `showView(v)`: shows `v`; entering the location view creates the map if there is none. */
    method ShowView(v: View)
      requires Valid()
      modifies this`currentView, this`hasMap
      ensures Valid()
      ensures currentView == v
      ensures hasMap == (old(hasMap) || v == Location)
    {
      currentView := v;
      if v == Location && !hasMap {
        InitializeMap();
      }
    }

    /** `initializeMap()`: creates the map, with no markers, unless one exists. */
    method InitializeMap()
      requires Valid()
      modifies this`hasMap
      ensures Valid() && hasMap
    {
      if hasMap {
        return;
      }
      hasMap := true;
    }

    /**
     * The map's click handler: the previous marker leaves the map and a
     * single new one is placed at the click; the draft's location becomes the
     * click position and the location step's next button is enabled. Photo
     * and description are kept.
     */
    method MapClick(at: LatLng)
      requires Valid() && hasMap
      modifies this`marker, this`mapLayers, this`reportData, this`mapStatus, this`btnNextLocationDisabled
      ensures Valid()
      ensures marker == Some(at) && mapLayers == [at]
      ensures reportData == old(reportData).(location := Some(at))
      ensures mapStatus == Located(at) && !btnNextLocationDisabled
    {
      if marker.Some? {
        mapLayers := RemoveLayer(mapLayers, marker.value);
      }
      marker := Some(at);
      mapLayers := mapLayers + [at];
      reportData := reportData.(location := Some(at));
      mapStatus := Located(at);
      btnNextLocationDisabled := false;
    }

    /**
     * `startNewReport()`: empties the draft, disables the three next buttons,
     * clears both status lines, takes the marker off the map and shows the
     * photo view. The map itself, the location method, the submit button and
     * any outstanding request are left as they are.
     */
    method StartNewReport()
      requires Valid()
      modifies this`reportData, this`btnNextPhotoDisabled, this`btnNextDescriptionDisabled,
               this`btnNextLocationDisabled, this`locationStatus, this`mapStatus,
               this`marker, this`mapLayers, this`currentView, this`hasMap
      ensures Valid()
      ensures reportData == EmptyReport
      ensures btnNextPhotoDisabled && btnNextDescriptionDisabled && btnNextLocationDisabled
      ensures locationStatus == Blank && mapStatus == Blank
      ensures marker == None && mapLayers == []
      ensures currentView == Photo && hasMap == old(hasMap)
    {
      reportData := EmptyReport;
      btnNextPhotoDisabled := true;
      btnNextDescriptionDisabled := true;
      locationStatus := Blank;
      mapStatus := Blank;
      btnNextLocationDisabled := true;
      if marker.Some? && hasMap {
        assert mapLayers == [marker.value];
        mapLayers := RemoveLayer(mapLayers, marker.value);
        marker := None;
      }
      ShowView(Photo);
    }

    /** `cancelReport()`: asks for confirmation; confirming only goes home. */
    method CancelReport()
      requires Valid()
      modifies this`modalVisible, this`modalSessions
      ensures Valid()
      ensures modalVisible && modalSessions == old(modalSessions) + [Some(ReturnHome)]
    {
      ShowConfirmModal(Some(ReturnHome));
    }

    /** `showConfirmModal(title, message, onConfirm)`: shows the modal and attaches its three listeners. */
    method ShowConfirmModal(onConfirm: Option<ConfirmAction>)
      requires Valid()
      modifies this`modalVisible, this`modalSessions
      ensures Valid()
      ensures modalVisible && modalSessions == old(modalSessions) + [onConfirm]
    {
      modalVisible := true;
      modalSessions := modalSessions + [onConfirm];
    }

    /**
     * A click on the modal's confirm button: each attached confirm listener
     * hides the modal, runs its `onConfirm` once and detaches its three
     * listeners, so afterwards none is attached.
     */
    method ModalConfirm()
      requires Valid()
      modifies this`modalVisible, this`modalSessions, this`confirmed, this`currentView, this`hasMap
      ensures Valid()
      ensures !modalVisible && modalSessions == []
      ensures confirmed == old(confirmed) + Actions(old(modalSessions))
      ensures currentView == if Some(ReturnHome) in old(modalSessions) then Home else old(currentView)
      ensures hasMap == old(hasMap)
    {
      var sessions := modalSessions;
      modalVisible := false;
      modalSessions := [];
      confirmed := confirmed + Actions(sessions);
      if Some(ReturnHome) in sessions {
        ShowView(Home);
      }
    }

    /** A click on the modal's cancel button: hides the modal and detaches every listener, running nothing. */
    method ModalCancel()
      requires Valid()
      modifies this`modalVisible, this`modalSessions
      ensures Valid()
      ensures !modalVisible && modalSessions == []
    {
      modalVisible := false;
      modalSessions := [];
    }

    /** A click inside the modal element: it cancels only when the modal itself is the target. */
    method ModalOverlayClick(targetIsModal: bool)
      requires Valid()
      modifies this`modalVisible, this`modalSessions
      ensures Valid()
      ensures targetIsModal ==> !modalVisible && modalSessions == []
      ensures !targetIsModal ==> modalVisible == old(modalVisible) && modalSessions == old(modalSessions)
    {
      if targetIsModal {
        ModalCancel();
      }
    }

    /**
     * `handlePhotoSelect(event)` up to the start of the file read: with no
     * file, a media type not starting with `image/` or a size over 10 MB
     * nothing changes; otherwise the file becomes the draft's photo at once,
     * while its data URL and the next button wait for the read.
     */
    method HandlePhotoSelect(file: Option<File>) returns (check: PhotoCheck)
      requires Valid()
      modifies this`reportData, this`pendingReads
      ensures Valid()
      ensures check == CheckPhoto(file)
      ensures check == Accepted ==>
                reportData == old(reportData).(photo := file) && pendingReads == old(pendingReads) + 1
      ensures check != Accepted ==> reportData == old(reportData) && pendingReads == old(pendingReads)
    {
      check := CheckPhoto(file);
      if check != Accepted {
        return;
      }
      reportData := reportData.(photo := file);
      pendingReads := pendingReads + 1;
    }

    /** The file reader's `onload`: stores the data URL and enables the photo step's next button. */
    method PhotoDecoded(dataURL: string)
      requires Valid() && pendingReads > 0
      modifies this`reportData, this`btnNextPhotoDisabled, this`pendingReads
      ensures Valid()
      ensures reportData == old(reportData).(photoURL := Some(dataURL))
      ensures !btnNextPhotoDisabled && pendingReads == old(pendingReads) - 1
    {
      reportData := reportData.(photoURL := Some(dataURL));
      btnNextPhotoDisabled := false;
      pendingReads := pendingReads - 1;
    }

    /**
     * `handleDescriptionInput(event)`: stores the text as typed and disables
     * the next button exactly when it has fewer than 10 characters (no trimming).
     */
    method HandleDescriptionInput(text: string)
      requires Valid()
      modifies this`reportData, this`btnNextDescriptionDisabled
      ensures Valid()
      ensures reportData == old(reportData).(description := text)
      ensures btnNextDescriptionDisabled == (|text| < 10)
    {
      reportData := reportData.(description := text);
      btnNextDescriptionDisabled := |text| < MinDescriptionLength;
    }

    /** `switchLocationMethod(method)`: records the method and creates the map when switching to it. */
    method SwitchLocationMethod(m: LocationMethod)
      requires Valid()
      modifies this`currentLocationMethod, this`hasMap
      ensures Valid()
      ensures currentLocationMethod == m
      ensures hasMap == (old(hasMap) || m == OnMap)
    {
      currentLocationMethod := m;
      if m == OnMap && !hasMap {
        InitializeMap();
      }
    }

    /** `getCurrentLocation()` up to the query: reports lack of support, or starts a query. */
    method GetCurrentLocation()
      requires Valid()
      modifies this`locationStatus, this`pendingFixes
      ensures Valid()
      ensures !geolocationSupported ==> locationStatus == Unsupported && pendingFixes == old(pendingFixes)
      ensures geolocationSupported ==> locationStatus == Locating && pendingFixes == old(pendingFixes) + 1
    {
      if !geolocationSupported {
        locationStatus := Unsupported;
        return;
      }
      locationStatus := Locating;
      pendingFixes := pendingFixes + 1;
    }

    /** The query's success callback: the fix becomes the draft's location and enables the next button. */
    method GeolocationSucceeded(at: LatLng)
      requires Valid() && pendingFixes > 0
      modifies this`reportData, this`locationStatus, this`btnNextLocationDisabled, this`pendingFixes
      ensures Valid()
      ensures reportData == old(reportData).(location := Some(at))
      ensures locationStatus == Located(at) && !btnNextLocationDisabled
      ensures pendingFixes == old(pendingFixes) - 1
    {
      reportData := reportData.(location := Some(at));
      locationStatus := Located(at);
      btnNextLocationDisabled := false;
      pendingFixes := pendingFixes - 1;
    }

    /** The query's error callback: only the status line changes. */
    method GeolocationFailed(code: int)
      requires Valid() && pendingFixes > 0
      modifies this`locationStatus, this`pendingFixes
      ensures Valid()
      ensures locationStatus == Failed(GeolocationErrorMessage(code))
      ensures pendingFixes == old(pendingFixes) - 1
    {
      locationStatus := Failed(GeolocationErrorMessage(code));
      pendingFixes := pendingFixes - 1;
    }

    // A click on a disabled button is not delivered; the next buttons are the
    // only way forward, and a step can be left forward only once its button
    // was enabled.

    /** A click on the photo step's next button. */
    method PressNextPhoto()
      requires Valid()
      modifies this`currentView, this`hasMap
      ensures Valid() && hasMap == old(hasMap)
      ensures currentView == if old(btnNextPhotoDisabled) then old(currentView) else Description
      ensures currentView != old(currentView) ==> reportData.photoURL.Some?
    {
      if !btnNextPhotoDisabled {
        ShowView(Description);
      }
    }

    /** A click on the description step's next button. */
    method PressNextDescription()
      requires Valid()
      modifies this`currentView, this`hasMap
      ensures Valid()
      ensures currentView == if old(btnNextDescriptionDisabled) then old(currentView) else Location
      ensures hasMap == (old(hasMap) || !old(btnNextDescriptionDisabled))
      ensures currentView != old(currentView) ==> |reportData.description| >= 10
    {
      if !btnNextDescriptionDisabled {
        ShowView(Location);
      }
    }

    /** A click on the location step's next button. */
    method PressNextLocation()
      requires Valid()
      modifies this`currentView, this`hasMap
      ensures Valid() && hasMap == old(hasMap)
      ensures currentView == if old(btnNextLocationDisabled) then old(currentView) else Confirm
      ensures currentView != old(currentView) ==> reportData.location.Some?
    {
      if !btnNextLocationDisabled {
        ShowView(Confirm);
      }
    }

    /** A click on the submit button. */
    method PressSubmit() returns (failure: Option<SubmitFailure>)
      requires Valid()
      modifies this`btnSubmitDisabled, this`loadingVisible, this`submitting
      ensures Valid()
      ensures old(btnSubmitDisabled) ==>
                failure == None && btnSubmitDisabled && loadingVisible == old(loadingVisible)
                && submitting == old(submitting)
      ensures !old(btnSubmitDisabled) && reportData.location.None? ==>
                failure == Some(MissingLocation) && !btnSubmitDisabled && !loadingVisible && !submitting
      ensures !old(btnSubmitDisabled) && reportData.location.Some? ==>
                failure == None && btnSubmitDisabled && loadingVisible && submitting
    {
      failure := None;
      if !btnSubmitDisabled {
        failure := HandleSubmit();
      }
    }

    /**
     * `handleSubmit()` up to the request: shows loading and disables submit;
     * with no location the form data cannot be built, and the catch and
     * finally blocks re-enable submit and hide loading at once; otherwise the
     * request is sent.
     */
    method HandleSubmit() returns (failure: Option<SubmitFailure>)
      requires Valid() && !submitting
      modifies this`btnSubmitDisabled, this`loadingVisible, this`submitting
      ensures Valid()
      ensures reportData.location.None? ==>
                failure == Some(MissingLocation) && !btnSubmitDisabled && !loadingVisible && !submitting
      ensures reportData.location.Some? ==>
                failure == None && btnSubmitDisabled && loadingVisible && submitting
    {
      loadingVisible := true;
      btnSubmitDisabled := true;
      if reportData.location.None? {
        failure := Some(MissingLocation);
        btnSubmitDisabled := false;
        loadingVisible := false;
        return;
      }
      failure := None;
      submitting := true;
    }

    /**
     * The rest of `handleSubmit()` once the request settles. An ok response
     * shows the success view and leaves submit disabled; a rejected request
     * or a response that is not ok re-enables submit and keeps the view. The
     * loading indicator is hidden on every path, and the draft is never cleared.
     */
    method SubmitSettled(outcome: FetchOutcome) returns (failure: Option<SubmitFailure>)
      requires Valid() && submitting
      modifies this`btnSubmitDisabled, this`loadingVisible, this`submitting, this`currentView, this`hasMap
      ensures Valid()
      ensures !loadingVisible && !submitting && hasMap == old(hasMap)
      ensures outcome.Rejected? ==> failure == Some(RequestFailed(outcome.message))
      ensures outcome.Responded? && !outcome.ok ==>
                failure == Some(RequestFailed(ResponseErrorMessage(outcome.body)))
      ensures outcome.Responded? && outcome.ok ==> failure == None
      ensures failure.None? ==> currentView == Success && btnSubmitDisabled
      ensures failure.Some? ==> currentView == old(currentView) && !btnSubmitDisabled
    {
      match outcome {
        case Rejected(message) =>
          failure := Some(RequestFailed(message));
        case Responded(ok, body) =>
          if ok {
            failure := None;
            ShowView(Success);
          } else {
            failure := Some(RequestFailed(ResponseErrorMessage(body)));
          }
      }
      if failure.Some? {
        btnSubmitDisabled := false;
      }
      submitting := false;
      loadingVisible := false;
    }

    /**
     * `SubmitSettled` with submit re-enabled in the `finally` block, so that
     * every settled attempt, the successful one included, leaves submit enabled.
     */
    method SubmitSettledCorrected(outcome: FetchOutcome) returns (failure: Option<SubmitFailure>)
      requires Valid() && submitting
      modifies this`btnSubmitDisabled, this`loadingVisible, this`submitting, this`currentView, this`hasMap
      ensures Valid()
      ensures !loadingVisible && !submitting && !btnSubmitDisabled && hasMap == old(hasMap)
      ensures outcome.Rejected? ==> failure == Some(RequestFailed(outcome.message))
      ensures outcome.Responded? && !outcome.ok ==>
                failure == Some(RequestFailed(ResponseErrorMessage(outcome.body)))
      ensures outcome.Responded? && outcome.ok ==> failure == None
      ensures currentView == if failure.None? then Success else old(currentView)
    {
      match outcome {
        case Rejected(message) =>
          failure := Some(RequestFailed(message));
        case Responded(ok, body) =>
          if ok {
            failure := None;
            ShowView(Success);
          } else {
            failure := Some(RequestFailed(ResponseErrorMessage(body)));
          }
      }
      btnSubmitDisabled := false;
      submitting := false;
      loadingVisible := false;
    }
  }
}
