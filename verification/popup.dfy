/** The policy applied when page content asks to open a new window
    (the `setWindowOpenHandler` callback in src/main.js): Google sign-in
    goes to the system browser, everything else opens inside the app. */
module Popup {
  import opened Options
  import opened Strings

  /** The text whose presence anywhere in the URL sends a popup out. */
  const GoogleAccounts: string := "accounts.google.com"

  /** The two answers Electron accepts from the handler. */
  datatype Action = Allow | Deny

  /** The handler's answer together with the URL, if any, it hands to the
      system browser before answering. */
  datatype Decision = Decision(action: Action, openExternally: Option<string>)

  /** `details.url.includes('accounts.google.com')` decides: the popup is
      denied and its URL opened externally exactly when the text occurs in
      it, otherwise it is allowed and nothing is opened externally. */
  function OnWindowOpen(url: string): (d: Decision)
    ensures d.action == Deny <==> exists i :: OccursAt(url, GoogleAccounts, i)
    ensures d.action == Deny ==> d.openExternally == Some(url)
    ensures d.action == Allow ==> d.openExternally == None
  {
    if Includes(url, GoogleAccounts) then
      Decision(Deny, Some(url))
    else
      Decision(Allow, None)
  }

  /** The test is on the whole URL, not on its host: a link to another
      site that merely mentions the text, in a query string say, is sent to
      the system browser too. */
  lemma QueryMentionIsEnough()
    ensures OnWindowOpen("https://example.com/?next=accounts.google.com")
         == Decision(Deny, Some("https://example.com/?next=accounts.google.com"))
  {
    var url := "https://example.com/?next=accounts.google.com";
    assert url[26..26 + |GoogleAccounts|] == GoogleAccounts;
    assert OccursAt(url, GoogleAccounts, 26);
  }

  /** A URL shorter than the text can never contain it, so it opens in the
      app. */
  lemma ShortUrlsAllowed(url: string)
    requires |url| < |GoogleAccounts|
    ensures OnWindowOpen(url) == Decision(Allow, None)
  {
  }

  /** The app's root page `https://www.notion.so/` opens in the app. */
  lemma NotionPageAllowed()
    ensures OnWindowOpen("https://www.notion.so/") == Decision(Allow, None)
  {
    var url := "https://www.notion.so/";
    forall i | 0 <= i && i + |GoogleAccounts| <= |url|
      ensures !OccursAt(url, GoogleAccounts, i)
    {
      assert url[..4] == "http";
      assert url[i] == url[..4][i];
      assert url[i..i + |GoogleAccounts|][0] != GoogleAccounts[0];
    }
  }
}
