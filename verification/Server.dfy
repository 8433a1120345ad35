/** The cookie of a login leads back to the user who logged in. */
module Server {
  import opened Ledger
  import opened Wrappers
  import opened Cookies
  import SessionServer
  import Sessions

  lemma LoginIsIssued(cs: seq<SessionServer.Call>, n: nat, uid: Uid)
    requires n < |cs| && cs[n] == SessionServer.Login(uid)
    ensures var ssid := SessionServer.Run(cs[..n]).next;
            ssid in SessionServer.Issued(cs[..n + 1]) && SessionServer.Issued(cs[..n + 1])[ssid] == uid
  {
    assert cs[..n + 1][..n] == cs[..n];
  }

  lemma LoginStarts(cs: seq<SessionServer.Call>, n: nat, uid: Uid)
    requires n < |cs| && cs[n] == SessionServer.Login(uid)
    ensures var s, t := SessionServer.Run(cs[..n]), SessionServer.Run(cs[..n + 1]);
            && s.next in t.memory && t.memory[s.next].uid == uid
            && t.memory[s.next].deadline == Sessions.Until(s.now + Sessions.SESSION_TIMEOUT)
  {
    assert cs[..n + 1][..n] == cs[..n];
  }

  /** After a login, at any later time and through any expiry and restoration, the cookie it
      set, among any cookies that do not use its name before it, is read back as an id whose
      session, if there still is one, is that of the user who logged in; and there still is one
      while less than 30 s have passed since the login and nobody has set its deadline. */
  lemma CookieLeadsToUser(cs: seq<SessionServer.Call>, n: nat, uid: Uid, before: seq<Pair>, after: seq<Pair>)
    requires n < |cs| && cs[n] == SessionServer.Login(uid)
    requires SessionServer.Logins(cs) + 1 < Sessions.TWO_TO_THE_64
    requires AllPlain(before) && AllPlain(after) && ValueOf(before, SSID) == None
    ensures var ssid := SessionServer.Run(cs[..n]).next;
            var found := Lookup(Render(before + [Pair(SSID, Print(ssid))] + after), SSID);
            && found.Some? && Digits(found.value)
            && SessionServer.Answer(SessionServer.Run(cs), Parse(found.value)) in {Some(uid), None}
            && (SessionServer.Undisturbed(cs, n + 1, ssid)
                && SessionServer.Run(cs).now < SessionServer.Run(cs[..n]).now + Sessions.SESSION_TIMEOUT ==>
                  SessionServer.Answer(SessionServer.Run(cs), Parse(found.value)) == Some(uid))
  {
    var ssid := SessionServer.Run(cs[..n]).next;
    SsidRoundTrip(before, ssid, after);
    LoginIsIssued(cs, n, uid);
    SessionServer.IssuesAreForever(cs, n + 1, ssid);
    SessionServer.SessionsKeepTheirUsers(cs, ssid);
    LoginStarts(cs, n, uid);
    if SessionServer.Undisturbed(cs, n + 1, ssid)
       && SessionServer.Run(cs).now < SessionServer.Run(cs[..n]).now + Sessions.SESSION_TIMEOUT {
      SessionServer.SessionsLastUntilTheirDeadline(cs, n + 1, ssid);
    }
  }
}
