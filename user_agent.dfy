/**
 * `UserAgentParser`: classification of an HTTP `User-Agent` header into a
 * browser name and a device type. Both work on the lower-cased header, so the
 * markers below are written in lower case.
 */
module UserAgent {
  import opened Wrappers
  import Text

  predicate Has(ua: string, marker: string)
  {
    Text.Includes(ua, marker)
  }

  predicate IsBrowserName(r: string)
  {
    r in {"Unknown", "Edge", "Opera", "Chrome", "Safari", "Firefox", "Internet Explorer", "Other"}
  }

  predicate IsDeviceType(r: string)
  {
    r in {"Unknown", "Mobile", "Tablet", "Desktop"}
  }

  // The marker tests of each browser, on the lower-cased header.
  predicate EdgeMarks(ua: string) { Has(ua, "edg/") || Has(ua, "edge/") }
  predicate OperaMarks(ua: string) { Has(ua, "opr/") || Has(ua, "opera") }
  predicate ChromeMarks(ua: string) { Has(ua, "chrome/") && !Has(ua, "chromium") }
  predicate SafariMarks(ua: string) { Has(ua, "safari/") && !Has(ua, "chrome") && !Has(ua, "chromium") }
  predicate FirefoxMarks(ua: string) { Has(ua, "firefox/") }
  predicate ExplorerMarks(ua: string) { Has(ua, "msie") || Has(ua, "trident/") }

  /** `parseBrowserName`: the first browser, in a fixed order, whose markers the header carries. */
  function BrowserName(userAgent: Option<string>): (r: string)
    ensures IsBrowserName(r)
    ensures r == "Unknown" <==> userAgent.None? || userAgent.value == ""
  {
    if userAgent.None? || userAgent.value == "" then "Unknown"
    else
      var ua := Text.ToLower(userAgent.value);
      if EdgeMarks(ua) then "Edge"
      else if OperaMarks(ua) then "Opera"
      else if ChromeMarks(ua) then "Chrome"
      else if SafariMarks(ua) then "Safari"
      else if FirefoxMarks(ua) then "Firefox"
      else if ExplorerMarks(ua) then "Internet Explorer"
      else "Other"
  }

  /** `parseDeviceType`. */
  function DeviceType(userAgent: Option<string>): (r: string)
    ensures IsDeviceType(r)
    ensures r == "Unknown" <==> userAgent.None? || userAgent.value == ""
  {
    if userAgent.None? || userAgent.value == "" then "Unknown"
    else
      var ua := Text.ToLower(userAgent.value);
      if Has(ua, "mobile") || (Has(ua, "android") && !Has(ua, "tablet")) then
        if Has(ua, "tablet") || Has(ua, "ipad") then "Tablet" else "Mobile"
      else if Has(ua, "tablet") || Has(ua, "ipad") then "Tablet"
      else "Desktop"
  }

  /** Upper or lower case in the header makes no difference to either result. */
  lemma CaseInsensitive(s: string)
    ensures BrowserName(Some(Text.ToLower(s))) == BrowserName(Some(s))
    ensures BrowserName(Some(Text.ToUpper(s))) == BrowserName(Some(s))
    ensures DeviceType(Some(Text.ToLower(s))) == DeviceType(Some(s))
    ensures DeviceType(Some(Text.ToUpper(s))) == DeviceType(Some(s))
  {
    Text.ToLowerIdempotent(s);
    assert Text.ToLower(Text.ToUpper(s)) == Text.ToLower(s);
  }

  /**
   * The precedence of the browser chain, stated per result: a browser is
   * reported exactly when its markers are present and no earlier browser's are.
   */
  lemma BrowserPrecedence(s: string)
    requires s != ""
    ensures var ua := Text.ToLower(s);
      && (BrowserName(Some(s)) == "Edge" <==> EdgeMarks(ua))
      && (BrowserName(Some(s)) == "Opera" <==> !EdgeMarks(ua) && OperaMarks(ua))
      && (BrowserName(Some(s)) == "Chrome" <==> !EdgeMarks(ua) && !OperaMarks(ua) && ChromeMarks(ua))
      && (BrowserName(Some(s)) == "Safari"
          <==> !EdgeMarks(ua) && !OperaMarks(ua) && !ChromeMarks(ua) && SafariMarks(ua))
      && (BrowserName(Some(s)) == "Firefox"
          <==> !EdgeMarks(ua) && !OperaMarks(ua) && !ChromeMarks(ua) && !SafariMarks(ua) && FirefoxMarks(ua))
      && (BrowserName(Some(s)) == "Internet Explorer"
          <==> !EdgeMarks(ua) && !OperaMarks(ua) && !ChromeMarks(ua) && !SafariMarks(ua)
               && !FirefoxMarks(ua) && ExplorerMarks(ua))
      && (BrowserName(Some(s)) == "Other"
          <==> !EdgeMarks(ua) && !OperaMarks(ua) && !ChromeMarks(ua) && !SafariMarks(ua)
               && !FirefoxMarks(ua) && !ExplorerMarks(ua))
  {
  }

  /** Whatever the order of the tests, the device type is decided by these three conditions. */
  lemma DeviceClassification(s: string)
    requires s != ""
    ensures var ua := Text.ToLower(s);
      var tablet := Has(ua, "tablet") || Has(ua, "ipad");
      && (DeviceType(Some(s)) == "Tablet" <==> tablet)
      && (DeviceType(Some(s)) == "Mobile" <==> !tablet && (Has(ua, "mobile") || Has(ua, "android")))
      && (DeviceType(Some(s)) == "Desktop" <==> !tablet && !Has(ua, "mobile") && !Has(ua, "android"))
  {
  }

  /** A header naming Chromium is never reported as Chrome or Safari, whatever else it names. */
  lemma ChromiumIsNeverChromeOrSafari(s: string)
    requires Has(Text.ToLower(s), "chromium")
    ensures BrowserName(Some(s)) != "Chrome" && BrowserName(Some(s)) != "Safari"
  {
  }

  /** A typical Chrome header also carries `safari/`, and is still reported as Chrome. */
  lemma ChromeBeforeSafari(s: string)
    requires var ua := Text.ToLower(s);
      Has(ua, "chrome/") && Has(ua, "safari/") && !Has(ua, "chromium") && !EdgeMarks(ua) && !OperaMarks(ua)
    ensures BrowserName(Some(s)) == "Chrome"
  {
  }
}
