/**
 * The server's origin allow-list for cross-origin requests (the CORS protocol, section
 * 3.2 of the WHATWG Fetch Standard), and the two callbacks that apply it: one for the
 * HTTP API and one for the real-time socket server.
 */
module Cors {

  import opened Wrappers
  import opened Text

  const AllowedList: seq<string> := ["http://localhost:5173", "http://localhost:5174"]
  const VercelSuffix := ".vercel.app"

  /** `isAllowedOrigin`: one of the two local development origins, or any Vercel deployment. */
  function IsAllowedOrigin(origin: string): (b: bool)
    ensures origin == "http://localhost:5173" || origin == "http://localhost:5174" ==> b
    ensures EndsWith(origin, ".vercel.app") ==> b
    ensures b ==> origin == "http://localhost:5173" || origin == "http://localhost:5174" || EndsWith(origin, ".vercel.app")
  {
    if origin in AllowedList then true
    else if EndsWith(origin, VercelSuffix) then true
    else false
  }

  /** What a CORS origin callback is called back with: `callback(err, allow)`. */
  datatype Verdict = Verdict(err: Option<string>, allow: Option<bool>)

  /** The HTTP API's callback: no origin, or an allowed one, passes; any other is refused without an error. */
  function HttpOrigin(origin: Option<string>): (v: Verdict)
    ensures v.err.None? && v.allow.Some?
    ensures v.allow.value <==> !Given(origin) || IsAllowedOrigin(origin.value)
  {
    if !Given(origin) || IsAllowedOrigin(origin.value) then Verdict(None, Some(true)) else Verdict(None, Some(false))
  }

  /** The socket server's callback: the same test, but a refused origin is reported as an error. */
  function SocketOrigin(origin: Option<string>): (v: Verdict)
    ensures v.err.None? <==> !Given(origin) || IsAllowedOrigin(origin.value)
    ensures v.err.None? ==> v.allow == Some(true)
    ensures v.err.Some? ==> v.err.value == "Not allowed by CORS" && v.allow.None?
  {
    if !Given(origin) || IsAllowedOrigin(origin.value) then Verdict(None, Some(true))
    else Verdict(Some("Not allowed by CORS"), None)
  }

  /** Both servers admit exactly the same origins. */
  lemma CallbacksAgree(origin: Option<string>)
    ensures HttpOrigin(origin).allow == Some(true) <==> SocketOrigin(origin).err.None?
  {
  }

  /** Whoever deploys any project on Vercel gets an allowed origin. */
  lemma {:induction false} AnyVercelDeploymentAllowed(project: string)
    ensures IsAllowedOrigin("https://" + project + ".vercel.app")
  {
    var o := "https://" + project + ".vercel.app";
    assert o[|o| - |VercelSuffix|..] == VercelSuffix;
  }

  /**
   * A look-alike host that carries the suffix but does not end with it (the origin ends
   * in a letter other than "p") is refused.
   */
  lemma LookAlikeRefused(prefix: string, tail: string)
    requires tail != [] && 'a' <= tail[|tail| - 1] <= 'z' && tail[|tail| - 1] != 'p'
    ensures !IsAllowedOrigin(prefix + VercelSuffix + tail)
  {
    var o := prefix + VercelSuffix + tail;
    assert o[|o| - 1] == tail[|tail| - 1];
    assert o[|o| - |VercelSuffix|..][|VercelSuffix| - 1] == o[|o| - 1];
    assert "http://localhost:5173"[20] == '3' && "http://localhost:5174"[20] == '4';
  }

  /** A local development server on any other port is refused. */
  lemma OtherLocalPortRefused(port: string)
    requires port != "5173" && port != "5174"
    requires port != [] && '0' <= port[|port| - 1] <= '9'
    ensures !IsAllowedOrigin("http://localhost:" + port)
  {
    var host := "http://localhost:";
    var o := host + port;
    assert o[|host|..] == port;
    assert "http://localhost:5173" == host + "5173" && "http://localhost:5174" == host + "5174";
    assert o[|o| - 1] == port[|port| - 1];
    if |o| >= |VercelSuffix| {
      assert o[|o| - |VercelSuffix|..][|VercelSuffix| - 1] == o[|o| - 1];
    }
  }
}
