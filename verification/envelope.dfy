/**
 * components/invitation/blocks/EnvelopeIntroBlock.tsx: the sealed envelope a
 * guest opens before the invitation shows. It remembers, per invitation and
 * guest, that the envelope was opened, in the browser's session storage.
 * Timers, animation and the DOM are left out; the session storage is a map.
 */
module Envelope {
  import opened Wrappers
  import opened Text

  const StorageKeyPrefix: string := "invitation_envelope_opened"

  /**
   * `getStorageKey`: no key without an invitation id (a missing or empty id);
   * otherwise the prefix, the id and the guest slug ("guest" when absent),
   * joined by underscores.
   */
  function StorageKey(invitationId: Option<string>, inviteeSlug: Option<string>): (r: Option<string>)
    ensures r.None? <==> invitationId.None? || invitationId.value == []
    ensures r.Some? ==> |r.value| > |StorageKeyPrefix| + 1 && r.value[..|StorageKeyPrefix| + 1] == StorageKeyPrefix + "_"
  {
    if invitationId.None? || invitationId.value == [] then None
    else Some(StorageKeyPrefix + "_" + invitationId.value + "_" + inviteeSlug.GetOr("guest"))
  }

  /** Where the underscore after the invitation id sits, and the id's characters before it. */
  lemma KeyLayout(id: string, slug: string)
    requires id != []
    ensures var k := StorageKey(Some(id), Some(slug)).value;
      && |k| == 28 + |id| + |slug|
      && k[27 + |id|] == '_'
      && (forall i | 0 <= i < |id| :: k[27 + i] == id[i])
      && k[28 + |id|..] == slug
  {
    var k := StorageKey(Some(id), Some(slug)).value;
    assert k == StorageKeyPrefix + "_" + id + "_" + slug;
    assert |StorageKeyPrefix| == 26;
  }

  /** Different (invitation, guest) pairs get different keys when invitation ids hold no underscore. */
  lemma StorageKeyInjective(id1: string, slug1: string, id2: string, slug2: string)
    requires id1 != [] && id2 != []
    requires '_' !in id1 && '_' !in id2
    requires StorageKey(Some(id1), Some(slug1)) == StorageKey(Some(id2), Some(slug2))
    ensures id1 == id2 && slug1 == slug2
  {
    var k := StorageKey(Some(id1), Some(slug1)).value;
    KeyLayout(id1, slug1);
    KeyLayout(id2, slug2);
    if |id1| < |id2| {
      assert false;
    } else if |id2| < |id1| {
      assert false;
    }
    assert id1 == k[27..27 + |id1|] == id2;
  }

  /** Without that condition two pairs can share a key. */
  lemma StorageKeyCollision()
    ensures StorageKey(Some("a_b"), Some("c")) == StorageKey(Some("a"), Some("b_c"))
  {
    var p := StorageKeyPrefix + "_";
    assert p + "a_b" + "_" + "c" == p + "a_b_c";
    assert p + "a" + "_" + "b_c" == p + "a_b_c";
  }

  /** A guest without a slug is remembered as "guest"; an empty slug is kept as it is. */
  lemma MissingSlugIsGuest(id: string)
    requires id != []
    ensures StorageKey(Some(id), None) == StorageKey(Some(id), Some("guest"))
    ensures StorageKey(Some(id), Some("")) != StorageKey(Some(id), Some("guest"))
  {
    KeyLayout(id, "");
    KeyLayout(id, "guest");
  }

  /** The greeting: the preview name, else the guest name, else "Dear Guest"; an empty name is kept. */
  function DisplayName(previewGuestName: Option<string>, guestName: Option<string>): (r: string)
    ensures previewGuestName.Some? ==> r == previewGuestName.value
    ensures previewGuestName.None? && guestName.Some? ==> r == guestName.value
    ensures r == "Dear Guest" <==>
              (previewGuestName.None? && (guestName.None? || guestName.value == "Dear Guest"))
              || previewGuestName == Some("Dear Guest")
  {
    previewGuestName.GetOr(guestName.GetOr("Dear Guest"))
  }

  /** The seal monogram: the first two characters of the initials ("SA" by default), upper-cased. */
  function Initials(sealInitials: Option<string>): (r: string)
    ensures var s := sealInitials.GetOr("SA");
      && |r| == (if |s| < 2 then |s| else 2)
      && forall i | 0 <= i < |r| :: r[i] == UpperChar(s[i])
  {
    var s := sealInitials.GetOr("SA");
    ToUpper(s[..if |s| < 2 then |s| else 2])
  }

  lemma InitialsExamples()
    ensures Initials(None) == "SA"
    ensures Initials(Some("sarah")) == "SA"
    ensures Initials(Some("")) == ""
  {
    assert Initials(Some("sarah")) == [UpperChar('s'), UpperChar('a')];
  }

  /** Upper-casing the monogram again changes nothing. */
  lemma InitialsUpperCase(sealInitials: Option<string>)
    ensures ToUpper(Initials(sealInitials)) == Initials(sealInitials)
  {
  }

  /** Session storage: key to stored text. */
  type Session = map<string, string>

  /** The envelope's state: opened, and whether the opening animation is running. */
  datatype Gate = Gate(isOpen: bool, isAnimating: bool)

  /** A preview (guest slug "preview") neither reads nor writes the remembered flag. */
  predicate IsPreview(inviteeSlug: Option<string>) {
    inviteeSlug == Some("preview")
  }

  /**
   * `wasOpened`: not a preview, running in a browser (`typeof window`),
   * there is a key, and it holds "1".
   */
  predicate WasOpened(session: Session, browser: bool, invitationId: Option<string>, inviteeSlug: Option<string>) {
    var key := StorageKey(invitationId, inviteeSlug);
    !IsPreview(inviteeSlug) && browser && key.Some? && key.value in session && session[key.value] == "1"
  }

  /**
   * The `[wasOpened]` effect after a render: once the flag reads as set, the
   * envelope is opened. The animation flag is left alone.
   */
  function Settle(g: Gate, session: Session, browser: bool, invitationId: Option<string>, inviteeSlug: Option<string>): (r: Gate)
    ensures r.isAnimating == g.isAnimating
    ensures r.isOpen <==> g.isOpen || WasOpened(session, browser, invitationId, inviteeSlug)
  {
    if WasOpened(session, browser, invitationId, inviteeSlug) then g.(isOpen := true) else g
  }

  /** The state after mounting: the first render and its effect. */
  function Mount(session: Session, browser: bool, invitationId: Option<string>, inviteeSlug: Option<string>): (g: Gate)
    ensures !g.isAnimating
    ensures g.isOpen <==> WasOpened(session, browser, invitationId, inviteeSlug)
    ensures !browser ==> !g.isOpen
  {
    Settle(Gate(false, false), session, browser, invitationId, inviteeSlug)
  }

  /** `handleOpen` writes the flag when there is a key and the guest is not previewing. */
  predicate WritesFlag(invitationId: Option<string>, inviteeSlug: Option<string>) {
    StorageKey(invitationId, inviteeSlug).Some? && !IsPreview(inviteeSlug)
  }

  /**
   * `handleOpen`: remember the opening (unless previewing or keyless) and
   * start the animation. The write is not guarded: when session storage
   * refuses it (`writable` false), the exception leaves `handleOpen` before
   * the animation starts, and nothing changes.
   */
  function Open(g: Gate, session: Session, writable: bool, invitationId: Option<string>, inviteeSlug: Option<string>): (r: (Gate, Session))
    ensures WritesFlag(invitationId, inviteeSlug) && !writable ==> r == (g, session)
    ensures !WritesFlag(invitationId, inviteeSlug) ==> r == (g.(isAnimating := true), session)
    ensures WritesFlag(invitationId, inviteeSlug) && writable ==>
              r == (g.(isAnimating := true), session[StorageKey(invitationId, inviteeSlug).value := "1"])
  {
    var key := StorageKey(invitationId, inviteeSlug);
    if !WritesFlag(invitationId, inviteeSlug) then (g.(isAnimating := true), session)
    else if !writable then (g, session)
    else (g.(isAnimating := true), session[key.value := "1"])
  }

  /**
   * When `wasOpened` is read. As written it is recomputed on every render, so
   * the `[wasOpened]` effect runs again after `handleOpen` has written the flag.
   * `MountOnly` reads it once, when the block mounts.
   */
  datatype FlagRead = EveryRender | MountOnly

  /**
   * `handleOpen` as the user sees it: the handler, then the re-render it
   * causes (events happen in a browser). A handler that threw changed no state,
   * so nothing re-renders.
   */
  function Handle(g: Gate, session: Session, writable: bool, invitationId: Option<string>, inviteeSlug: Option<string>,
                  read: FlagRead): (r: (Gate, Session))
    ensures r.1 == Open(g, session, writable, invitationId, inviteeSlug).1
    ensures r.0.isAnimating == Open(g, session, writable, invitationId, inviteeSlug).0.isAnimating
    ensures read.MountOnly? ==> r == Open(g, session, writable, invitationId, inviteeSlug)
    ensures read.EveryRender? && Open(g, session, writable, invitationId, inviteeSlug).0 != g ==>
              (r.0.isOpen <==> g.isOpen || WasOpened(r.1, true, invitationId, inviteeSlug))
  {
    var (g1, s1) := Open(g, session, writable, invitationId, inviteeSlug);
    if read.EveryRender? && g1 != g then (Settle(g1, s1, true, invitationId, inviteeSlug), s1) else (g1, s1)
  }

  /** The animation timer firing: the envelope is open and no longer animating. */
  function AnimationDone(g: Gate): (r: Gate)
    ensures r.isOpen && !r.isAnimating
  {
    Gate(true, false)
  }

  /** The block renders nothing once opened. */
  predicate Rendered(g: Gate) {
    !g.isOpen
  }

  /** A key press on the envelope button: Enter or Space opens it, unless already opened or animating. */
  function KeyDown(g: Gate, session: Session, writable: bool, invitationId: Option<string>, inviteeSlug: Option<string>,
                   read: FlagRead, key: string): (r: (Gate, Session))
    ensures !((key == "Enter" || key == " ") && !g.isOpen && !g.isAnimating) ==> r == (g, session)
    ensures (key == "Enter" || key == " ") && !g.isOpen && !g.isAnimating ==>
              r == Handle(g, session, writable, invitationId, inviteeSlug, read)
  {
    if (key == "Enter" || key == " ") && !g.isOpen && !g.isAnimating then Handle(g, session, writable, invitationId, inviteeSlug, read)
    else (g, session)
  }

  /** A click on the envelope button: the button is disabled while animating and absent once opened. */
  function Click(g: Gate, session: Session, writable: bool, invitationId: Option<string>, inviteeSlug: Option<string>,
                 read: FlagRead): (r: (Gate, Session))
    ensures g.isOpen || g.isAnimating ==> r == (g, session)
    ensures !g.isOpen && !g.isAnimating ==> r == Handle(g, session, writable, invitationId, inviteeSlug, read)
  {
    if g.isOpen || g.isAnimating then (g, session) else Handle(g, session, writable, invitationId, inviteeSlug, read)
  }

  /** In a preview nothing is ever remembered, nothing remembered is ever read, and a press always animates. */
  lemma PreviewNeverPersists(g: Gate, session: Session, browser: bool, writable: bool, invitationId: Option<string>,
                             read: FlagRead, key: string)
    ensures !Mount(session, browser, invitationId, Some("preview")).isOpen
    ensures Open(g, session, writable, invitationId, Some("preview")).1 == session
    ensures KeyDown(g, session, writable, invitationId, Some("preview"), read, key).1 == session
    ensures Click(g, session, writable, invitationId, Some("preview"), read) == (g.(isAnimating := true), session)
            || g.isOpen || g.isAnimating
  {
  }

  /** Opening an envelope, then mounting the block again in the same browser session, shows it already open. */
  lemma OpenIsRemembered(g: Gate, session: Session, invitationId: Option<string>, inviteeSlug: Option<string>)
    requires invitationId.Some? && invitationId.value != []
    requires !IsPreview(inviteeSlug)
    ensures Mount(Open(g, session, true, invitationId, inviteeSlug).1, true, invitationId, inviteeSlug).isOpen
  {
  }

  /** A refused write leaves the envelope closed and still rendered: a later mount does not find it opened either. */
  lemma RefusedWriteKeepsClosed(session: Session, browser: bool, invitationId: Option<string>, inviteeSlug: Option<string>,
                                read: FlagRead, key: string)
    requires key == "Enter" || key == " "
    requires WritesFlag(invitationId, inviteeSlug)
    requires !WasOpened(session, browser, invitationId, inviteeSlug)
    ensures var g0 := Mount(session, browser, invitationId, inviteeSlug);
      var (g1, s1) := KeyDown(g0, session, false, invitationId, inviteeSlug, read, key);
      && g1 == g0 && s1 == session && Rendered(g1) && !g1.isAnimating
      && !Mount(s1, browser, invitationId, inviteeSlug).isOpen
  {
  }

  /** Opening one guest's envelope does not open another invitation's, when ids hold no underscore. */
  lemma OpenLeavesOtherInvitations(g: Gate, session: Session, writable: bool, id1: string, id2: string,
                                   slug1: Option<string>, slug2: Option<string>, browser: bool)
    requires id1 != [] && id2 != [] && '_' !in id1 && '_' !in id2 && id1 != id2
    ensures WasOpened(Open(g, session, writable, Some(id1), slug1).1, browser, Some(id2), slug2)
            == WasOpened(session, browser, Some(id2), slug2)
  {
    var k1 := StorageKey(Some(id1), slug1);
    var k2 := StorageKey(Some(id2), slug2);
    if k1 == k2 {
      StorageKeyInjective(id1, slug1.GetOr("guest"), id2, slug2.GetOr("guest"));
    }
  }

  /**
   * The opening sequence from a fresh mount, when the flag is written or not
   * needed. The press starts the animation. As written, a press that writes
   * the flag also opens the envelope at once, so the block is gone before the
   * animation can play; a preview or keyless opening, or a flag read only at
   * mount, keeps the block rendered until the animation ends, and a second
   * press in between does nothing.
   */
  lemma KeyboardOpeningSequence(session: Session, browser: bool, writable: bool,
                                invitationId: Option<string>, inviteeSlug: Option<string>, read: FlagRead, key: string)
    requires key == "Enter" || key == " "
    requires writable || !WritesFlag(invitationId, inviteeSlug)
    requires !WasOpened(session, browser, invitationId, inviteeSlug)
    ensures var g0 := Mount(session, browser, invitationId, inviteeSlug);
      var (g1, s1) := KeyDown(g0, session, writable, invitationId, inviteeSlug, read, key);
      && Rendered(g0) && g1.isAnimating
      && (Rendered(g1) <==> read.MountOnly? || !WritesFlag(invitationId, inviteeSlug))
      && KeyDown(g1, s1, writable, invitationId, inviteeSlug, read, key) == (g1, s1)
      && !Rendered(AnimationDone(g1))
  {
    var g0 := Mount(session, browser, invitationId, inviteeSlug);
    var (g1, s1) := Open(g0, session, writable, invitationId, inviteeSlug);
    assert g1 != g0;
  }

  /**
   * As written, pressing Enter on a fresh guest envelope hides the block in
   * the same step that starts the animation.
   */
  lemma PressSkipsAnimation()
    ensures var g0 := Mount(map[], true, Some("abc"), None);
      var (g1, s1) := KeyDown(g0, map[], true, Some("abc"), None, EveryRender, "Enter");
      && Rendered(g0) && g1.isAnimating && !Rendered(g1)
  {
    KeyboardOpeningSequence(map[], true, true, Some("abc"), None, EveryRender, "Enter");
  }

  /**
   * With the flag read only at mount, the same press leaves the envelope on
   * screen, animating, until the timer opens it.
   */
  lemma AnimationPlaysWhenReadOnce(session: Session, browser: bool, invitationId: Option<string>, inviteeSlug: Option<string>,
                                   key: string)
    requires key == "Enter" || key == " "
    requires !WasOpened(session, browser, invitationId, inviteeSlug)
    ensures var g0 := Mount(session, browser, invitationId, inviteeSlug);
      var (g1, s1) := KeyDown(g0, session, true, invitationId, inviteeSlug, MountOnly, key);
      && g1 == Gate(false, true) && Rendered(g1) && AnimationDone(g1) == Gate(true, false)
  {
    KeyboardOpeningSequence(session, browser, true, invitationId, inviteeSlug, MountOnly, key);
  }
}
