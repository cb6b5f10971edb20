/** The request-limit helper of the HTTP front end. */
module Api {
  import opened Wrappers
  import opened Config

  /**
   * _apply_safe_limits: outside safe mode nothing changes. In safe mode the
   * DPI is capped at SAFE_DPI, a missing page limit becomes the async or
   * sync cap, and an explicit page limit is kept as given, even above the cap.
   */
  function ApplySafeLimits(cfg: Settings, dpi: int, maxPages: Option<int>, isAsync: bool): (r: (int, Option<int>))
    ensures !cfg.safeMode ==> r == (dpi, maxPages)
    ensures r.0 <= dpi
    ensures cfg.safeMode ==> r.0 <= cfg.safeDpi && (r.0 == dpi || r.0 == cfg.safeDpi)
    ensures cfg.safeMode ==> r.1.Some?
    ensures cfg.safeMode && maxPages.None? ==> r.1.value == (if isAsync then cfg.asyncMaxPages else cfg.syncMaxPages)
    ensures maxPages.Some? ==> r.1 == maxPages
  {
    if !cfg.safeMode then (dpi, maxPages)
    else
      var defaultCap := if isAsync then cfg.asyncMaxPages else cfg.syncMaxPages;
      var capped := if maxPages.Some? then maxPages.value else defaultCap;
      (Min(dpi, cfg.safeDpi), Some(capped))
  }
}
