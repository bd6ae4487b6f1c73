/** The part of the app-wide observable state (AppState in
    NotifyFilter/App/NotifyFilterApp.swift) that the services update. */
module State {
  class AppState {
    var isMonitoring: bool
    var helperRunning: bool
    var processedCount: int
    var matchedCount: int

    /** Everything starts off and at zero; loadState() restores nothing. */
    constructor ()
      ensures !isMonitoring && !helperRunning
      ensures processedCount == 0 && matchedCount == 0
    {
      isMonitoring := false;
      helperRunning := false;
      processedCount := 0;
      matchedCount := 0;
    }
  }
}
