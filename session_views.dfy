/**
 * The earlier `gallery_detail`, which remembers a successful password in the
 * session under `gallery_auth_<id>` and then shows the gallery on later views.
 * Session values are modelled by their truthiness.
 */
module SessionViews {
  import opened Wrappers
  import opened Models
  import opened Gate
  import Decimal
  import StatelessViews

  type SessionData = map<string, bool>

  /** `f'gallery_auth_{gallery_id}'`. */
  function AuthKey(galleryId: nat): string
  {
    "gallery_auth_" + Decimal.Show(galleryId)
  }

  /** Each gallery has its own session key. */
  lemma AuthKeyInjective(a: nat, b: nat)
    ensures AuthKey(a) == AuthKey(b) ==> a == b
  {
    var prefix := "gallery_auth_";
    if AuthKey(a) == AuthKey(b) {
      assert AuthKey(a)[|prefix|..] == Decimal.Show(a);
      assert AuthKey(b)[|prefix|..] == Decimal.Show(b);
      Decimal.ShowInjective(a, b);
    }
  }

  /** `request.session.get(key)` is truthy. */
  predicate IsAuthenticated(session: SessionData, galleryId: nat)
  {
    AuthKey(galleryId) in session && session[AuthKey(galleryId)]
  }

  /** The page and the session as the request leaves them. */
  datatype Response = Response(outcome: Outcome, session: SessionData)

  /** One request, as a value: the outcome and the session it writes back. */
  function DetailResponse(gs: seq<Gallery>, galleryId: nat, req: Request, session: SessionData,
                          verify: (string, string) -> bool): (r: Response)
    ensures r.outcome.NotFound? <==> !HasGallery(gs, galleryId)
    ensures !r.outcome.NotFound? ==> r.outcome.gallery == Find(gs, galleryId).value
    ensures r.session == session || r.session == session[AuthKey(galleryId) := true]
  {
    match Find(gs, galleryId)
    case None => Response(NotFound, session)
    case Some(g) =>
      if !IsProtected(g) then Response(Detail(g), session)
      else if req.verb == "POST" then
        if PasswordAccepted(g, req, verify) then
          Response(Detail(g), session[AuthKey(galleryId) := true])
        else Response(Prompt(g, Some(WrongPassword)), session)
      else if IsAuthenticated(session, galleryId) then Response(Detail(g), session)
      else Response(Prompt(g, None), session)
  }

  /** The session dictionary the framework hands to the view; the view writes to it in place. */
  class Session {
    var data: SessionData

    constructor (data: SessionData)
      ensures this.data == data
    {
      this.data := data;
    }
  }

  method GalleryDetail(gs: seq<Gallery>, galleryId: nat, req: Request, session: Session,
                       verify: (string, string) -> bool) returns (o: Outcome)
    modifies session
    ensures Response(o, session.data) == DetailResponse(gs, galleryId, req, old(session.data), verify)
  {
    var found := Find(gs, galleryId);
    if found.None? {
      return NotFound;
    }
    var g := found.value;
    if !IsProtected(g) {
      return Detail(g);
    }
    if req.verb == "POST" {
      var submitted := SubmittedPassword(req);
      if Truthy(submitted) && CheckGalleryPassword(g, submitted.value, verify) {
        session.data := session.data[AuthKey(galleryId) := true];
        return Detail(g);
      } else {
        return Prompt(g, Some(WrongPassword));
      }
    }
    var key := AuthKey(galleryId);
    if key in session.data && session.data[key] {
      return Detail(g);
    }
    return Prompt(g, None);
  }

  lemma UnknownGalleryNotFound(gs: seq<Gallery>, galleryId: nat, req: Request, session: SessionData,
                               verify: (string, string) -> bool)
    requires !HasGallery(gs, galleryId)
    ensures DetailResponse(gs, galleryId, req, session, verify) == Response(NotFound, session)
  {
  }

  lemma UnprotectedAlwaysShown(gs: seq<Gallery>, g: Gallery, req: Request, session: SessionData,
                               verify: (string, string) -> bool)
    requires Find(gs, g.id) == Some(g) && !IsProtected(g)
    ensures DetailResponse(gs, g.id, req, session, verify) == Response(Detail(g), session)
  {
  }

  lemma VerifiedPostShownAndRemembered(gs: seq<Gallery>, g: Gallery, req: Request, session: SessionData,
                                       verify: (string, string) -> bool)
    requires Find(gs, g.id) == Some(g) && IsProtected(g) && req.verb == "POST"
    requires "password" in req.post && req.post["password"] != ""
    requires verify(req.post["password"], g.password.value)
    ensures DetailResponse(gs, g.id, req, session, verify) ==
            Response(Detail(g), session[AuthKey(g.id) := true])
  {
  }

  lemma RejectedPostKeepsSession(gs: seq<Gallery>, g: Gallery, req: Request, session: SessionData,
                                 verify: (string, string) -> bool)
    requires Find(gs, g.id) == Some(g) && IsProtected(g) && req.verb == "POST"
    requires "password" !in req.post || req.post["password"] == "" ||
             !verify(req.post["password"], g.password.value)
    ensures DetailResponse(gs, g.id, req, session, verify) ==
            Response(Prompt(g, Some(WrongPassword)), session)
  {
  }

  lemma RememberedViewShown(gs: seq<Gallery>, g: Gallery, req: Request, session: SessionData,
                            verify: (string, string) -> bool)
    requires Find(gs, g.id) == Some(g) && IsProtected(g) && req.verb != "POST"
    requires IsAuthenticated(session, g.id)
    ensures DetailResponse(gs, g.id, req, session, verify) == Response(Detail(g), session)
  {
  }

  lemma FreshViewPrompts(gs: seq<Gallery>, g: Gallery, req: Request, session: SessionData,
                         verify: (string, string) -> bool)
    requires Find(gs, g.id) == Some(g) && IsProtected(g) && req.verb != "POST"
    requires !IsAuthenticated(session, g.id)
    ensures DetailResponse(gs, g.id, req, session, verify) == Response(Prompt(g, None), session)
  {
  }

  /** A request about gallery `a` leaves the flag of every other gallery as it was. */
  lemma FlagIsPerGallery(gs: seq<Gallery>, a: nat, b: nat, req: Request, session: SessionData,
                         verify: (string, string) -> bool)
    requires a != b
    ensures IsAuthenticated(DetailResponse(gs, a, req, session, verify).session, b) ==
            IsAuthenticated(session, b)
  {
    AuthKeyInjective(a, b);
  }

  /** So logging in to gallery `a` changes nothing about any later request to gallery `b`. */
  lemma LoginDoesNotLeak(gs: seq<Gallery>, a: nat, b: nat, login: Request, later: Request,
                         session: SessionData, verify: (string, string) -> bool)
    requires a != b
    ensures DetailResponse(gs, b, later, DetailResponse(gs, a, login, session, verify).session, verify).outcome ==
            DetailResponse(gs, b, later, session, verify).outcome
  {
    FlagIsPerGallery(gs, a, b, login, session, verify);
  }

  /** The session after a run of requests, each naming its gallery. */
  function Replay(gs: seq<Gallery>, reqs: seq<(nat, Request)>, session: SessionData,
                  verify: (string, string) -> bool): SessionData
    decreases |reqs|
  {
    if reqs == [] then session
    else Replay(gs, reqs[1..], DetailResponse(gs, reqs[0].0, reqs[0].1, session, verify).session, verify)
  }

  /** Nothing in the view clears a flag: once remembered, a gallery stays remembered. */
  lemma {:induction false} FlagPersists(gs: seq<Gallery>, reqs: seq<(nat, Request)>, session: SessionData,
                                        galleryId: nat, verify: (string, string) -> bool)
    requires IsAuthenticated(session, galleryId)
    ensures IsAuthenticated(Replay(gs, reqs, session, verify), galleryId)
  {
    if reqs != [] {
      FlagPersists(gs, reqs[1..], DetailResponse(gs, reqs[0].0, reqs[0].1, session, verify).session,
                   galleryId, verify);
    }
  }

  /**
   * After an accepted POST to a protected gallery, any later run of requests
   * leaves a plain view of that gallery shown rather than prompted.
   */
  lemma LoginRemembered(gs: seq<Gallery>, g: Gallery, login: Request, reqs: seq<(nat, Request)>,
                        view: Request, session: SessionData, verify: (string, string) -> bool)
    requires Find(gs, g.id) == Some(g) && IsProtected(g)
    requires login.verb == "POST" && PasswordAccepted(g, login, verify)
    requires view.verb != "POST"
    ensures var after := Replay(gs, reqs, DetailResponse(gs, g.id, login, session, verify).session, verify);
            DetailResponse(gs, g.id, view, after, verify).outcome == Detail(g)
  {
    FlagPersists(gs, reqs, DetailResponse(gs, g.id, login, session, verify).session, g.id, verify);
  }

  /**
   * The two versions answer alike except on a plain view of a protected gallery
   * whose flag is set, where this one shows the gallery and the current one prompts.
   */
  lemma VariantsDifferOnlyOnRememberedViews(gs: seq<Gallery>, galleryId: nat, req: Request,
                                            session: SessionData, verify: (string, string) -> bool)
    ensures var cached := DetailResponse(gs, galleryId, req, session, verify).outcome;
            var current := StatelessViews.GalleryDetail(gs, galleryId, req, verify);
            (cached != current <==>
              HasGallery(gs, galleryId) && IsProtected(Find(gs, galleryId).value) &&
              req.verb != "POST" && IsAuthenticated(session, galleryId)) &&
            (cached != current ==> cached.Detail? && current.Prompt? && current.error.None?)
  {
  }
}
