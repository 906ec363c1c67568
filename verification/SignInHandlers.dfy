/** The handlers that turn a code into a session or an ID token, as they run against the code tables. */
module SignInHandlers {
  import opened Options
  import opened SignIn

  class CodeStore {
    var appCodes: map<Token, CodeRecord>
    var oidcCodes: map<Token, CodeRecord>

    constructor ()
      ensures appCodes == map[] && oidcCodes == map[]
    {
      appCodes, oidcCodes := map[], map[];
    }

    method InsertCode(code: Token, flow: Flow, id: Identity, served: Served, now: Time)
      requires code !in appCodes && code !in oidcCodes
      modifies this
      ensures forall w: World, p: Pid ::
                (w.appCodes == old(appCodes) && w.oidcCodes == old(oidcCodes) && w.now == now
                && IsAt(w, p) && w.requests[p] == ToInsert(flow, id, served)) ==>
                  appCodes == AfterInsert(w, p, code).appCodes && oidcCodes == AfterInsert(w, p, code).oidcCodes
    {
      var rec := CodeRecord(flow, id, served, now + CODE_TTL);
      if flow.target.App? {
        appCodes := appCodes[code := rec];
      } else {
        oidcCodes := oidcCodes[code := rec];
      }
    }

    /** Looking a code up consumes it. */
    method RedeemCode(code: Token, now: Time) returns (rec: Option<CodeRecord>, unexpired: bool)
      modifies this`appCodes
      ensures appCodes == old(appCodes) - {code}
      ensures rec == if code in old(appCodes) then Some(old(appCodes)[code]) else None
      ensures unexpired <==> rec.Some? && rec.value.expires > now
    {
      rec, unexpired := None, false;
      if code in appCodes {
        rec := Some(appCodes[code]);
        unexpired := rec.value.expires > now;
      }
      appCodes := appCodes - {code};
    }

    method RedeemOIDCCode(code: Token, now: Time) returns (rec: Option<CodeRecord>, unexpired: bool)
      modifies this`oidcCodes
      ensures oidcCodes == old(oidcCodes) - {code}
      ensures rec == if code in old(oidcCodes) then Some(old(oidcCodes)[code]) else None
      ensures unexpired <==> rec.Some? && rec.value.expires > now
    {
      rec, unexpired := None, false;
      if code in oidcCodes {
        rec := Some(oidcCodes[code]);
        unexpired := rec.value.expires > now;
      }
      oidcCodes := oidcCodes - {code};
    }

    /** The app host's callback: it seals a session exactly when the step of the whole machine logs one. */
    method Callback(host: Host, code: Token, nonces: seq<Token>, now: Time) returns (session: Option<Entry>)
      modifies this`appCodes
      ensures forall w: World | w.appCodes == old(appCodes) && w.now == now ::
                var v := AfterCallback(w, host, code, nonces);
                && v.appCodes == appCodes
                && v.log == w.log + Burnt(old(appCodes), code) + Shown(session)
    {
      var rec, unexpired := RedeemCode(code, now);
      session := None;
      if rec.None? || !unexpired || !rec.value.flow.target.App? || rec.value.flow.target.host != host {
        return;
      }
      var hash := rec.value.flow.target.nonceHash;
      var held := NonceMatches(nonces, hash);
      if held {
        session := Some(Session(host, rec.value.id.sub, rec.value.id.keycloakSID, code, hash.of, now));
      }
    }

    /** The token endpoint. */
    method Redeem(client: Deployment, redirectURI: Uri, code: Token, verifier: Option<Token>, admitted: bool, now: Time)
      returns (token: Option<Entry>)
      modifies this`oidcCodes
      ensures forall w: World | w.oidcCodes == old(oidcCodes) && w.now == now ::
                var v := AfterRedeem(w, client, redirectURI, code, verifier, admitted);
                && v.oidcCodes == oidcCodes
                && v.log == w.log + Burnt(old(oidcCodes), code) + Shown(token)
    {
      var rec, unexpired := RedeemOIDCCode(code, now);
      token := None;
      if rec.None? || !unexpired || !rec.value.flow.target.Client? {
        return;
      }
      var target := rec.value.flow.target;
      if target.client != client || target.redirectURI != redirectURI || !admitted {
        return;
      }
      if target.challenge.None? {
        if verifier.Some? { return; }
      } else if verifier.None? || Digest(verifier.value) != target.challenge.value {
        return;
      }
      token := Some(IDToken(client, rec.value.id.sub, redirectURI, code, verifier, now));
    }
  }

  /** What a presented code adds to the history, and what the browser is then given. */
  function Burnt(codes: map<Token, CodeRecord>, code: Token): seq<Entry> {
    if code in codes then [Redeemed(code)] else []
  }

  function Shown(entry: Option<Entry>): seq<Entry> {
    if entry.Some? then [entry.value] else []
  }

  /** Any one of the login cookies may be the one that started the flow. */
  method NonceMatches(nonces: seq<Token>, want: Digest) returns (matches: bool)
    ensures matches <==> HasNonce(nonces, want)
  {
    for i := 0 to |nonces|
      invariant forall k | 0 <= k < i :: Digest(nonces[k]) != want
    {
      if Digest(nonces[i]) == want {
        return true;
      }
    }
    return false;
  }
}
