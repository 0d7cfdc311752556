/**
 * The live preview (client/App.tsx): the frame's receiver, whose message
 * listener hands `update` messages to `updatePreview`, which overwrites the
 * style, markup-root and script slots for the fields the message carries;
 * and the host, which posts full updates once the loaded flag is set and the
 * frame has a window.
 */
module Preview {
  import opened JsText
  import Artifacts

  /** A message as the frame's listener sees it: its `type` and the three
      fields, each present (a string) or undefined. */
  datatype Message = Message(kind: string, css: Option<string>, html: Option<string>, js: Option<string>)

  /** A message the host posts: of type `update`, with all three fields. */
  predicate IsFullUpdate(m: Message) {
    m.kind == "update" && m.css.Some? && m.html.Some? && m.js.Some?
  }

  /** The message the host posts for an artifact. */
  function FullUpdate(a: Artifacts.Artifact): (m: Message)
    ensures IsFullUpdate(m)
    ensures m.css == Some(a.css) && m.html == Some(a.html) && m.js == Some(a.js)
  {
    Message("update", Some(a.css), Some(a.html), Some(a.js))
  }

  /** The receiver's state: the text of the user style element, the markup
      of the root element, the text of the user script element, and every
      script the frame has evaluated, in order. */
  datatype Slots = Slots(style: string, root: string, script: string, runs: seq<string>)

  /** The slots of a freshly loaded bootstrap document. */
  const EmptySlots := Slots("", "", "", [])

  /** A field's new value: the field when the message carries it, the slot's
      old value otherwise. */
  function Overwrite(field: Option<string>, slot: string): string {
    if field.Some? then field.value else slot
  }

  /** The listener and `updatePreview` on one message. */
  function Applied(f: Slots, m: Message): Slots {
    if m.kind != "update" then f
    else Slots(Overwrite(m.css, f.style), Overwrite(m.html, f.root), Overwrite(m.js, f.script),
               f.runs + (if m.js.Some? then [m.js.value] else []))
  }

  /** A message of another type is ignored; an update overwrites exactly the
      slots whose fields it carries, evaluates its script if it carries one,
      and leaves everything else as it was. */
  lemma AppliedFields(f: Slots, m: Message)
    ensures m.kind != "update" ==> Applied(f, m) == f
    ensures m.kind == "update" ==>
              && (m.css.Some? ==> Applied(f, m).style == m.css.value)
              && (m.css.None? ==> Applied(f, m).style == f.style)
              && (m.html.Some? ==> Applied(f, m).root == m.html.value)
              && (m.html.None? ==> Applied(f, m).root == f.root)
              && (m.js.Some? ==> Applied(f, m).script == m.js.value && Applied(f, m).runs == f.runs + [m.js.value])
              && (m.js.None? ==> Applied(f, m).script == f.script && Applied(f, m).runs == f.runs)
  {
  }

  /** The slots after a sequence of messages, delivered in order. */
  function Replay(f: Slots, ms: seq<Message>): Slots
    decreases |ms|
  {
    if ms == [] then f else Replay(Applied(f, ms[0]), ms[1..])
  }

  lemma {:induction false} ReplayAppend(f: Slots, a: seq<Message>, b: seq<Message>)
    ensures Replay(f, a + b) == Replay(Replay(f, a), b)
    decreases |a|
  {
    if a == [] {
      assert a + b == b;
    } else {
      assert (a + b)[1..] == a[1..] + b;
      ReplayAppend(Applied(f, a[0]), a[1..], b);
    }
  }

  /** A full update sets all three slots whatever they held before. */
  lemma FullUpdateOverwrites(f: Slots, g: Slots, m: Message)
    requires IsFullUpdate(m)
    ensures Applied(f, m).style == Applied(g, m).style == m.css.value
    ensures Applied(f, m).root == Applied(g, m).root == m.html.value
    ensures Applied(f, m).script == Applied(g, m).script == m.js.value
  {
  }

  /** Messages of other types change nothing. */
  lemma {:induction false} IgnoredMessages(f: Slots, ms: seq<Message>)
    requires forall i :: 0 <= i < |ms| ==> ms[i].kind != "update"
    ensures Replay(f, ms) == f
    decreases |ms|
  {
    if ms != [] {
      IgnoredMessages(f, ms[1..]);
    }
  }

  /** Once a full update is delivered the slots show it, whatever they
      showed before and whatever came earlier; so the preview converges to
      the last artifact the host posted. */
  lemma LastFullUpdateWins(f: Slots, ms: seq<Message>)
    requires ms != [] && IsFullUpdate(ms[|ms| - 1])
    ensures Replay(f, ms).style == ms[|ms| - 1].css.value
    ensures Replay(f, ms).root == ms[|ms| - 1].html.value
    ensures Replay(f, ms).script == ms[|ms| - 1].js.value
  {
    var front := ms[..|ms| - 1];
    assert ms == front + [ms[|ms| - 1]];
    ReplayAppend(f, front, [ms[|ms| - 1]]);
  }

  /** The scripts of the updates that carry one, in order. */
  function Scripts(ms: seq<Message>): seq<string> {
    if ms == [] then []
    else (if ms[0].kind == "update" && ms[0].js.Some? then [ms[0].js.value] else []) + Scripts(ms[1..])
  }

  /** The frame evaluates the script of every update that carries one, once
      each and in the order delivered, and nothing else. */
  lemma {:induction false} RunsRecordScripts(f: Slots, ms: seq<Message>)
    ensures Replay(f, ms).runs == f.runs + Scripts(ms)
    decreases |ms|
  {
    if ms != [] {
      RunsRecordScripts(Applied(f, ms[0]), ms[1..]);
    }
  }

  /** Over full updates only, the evaluated scripts are the updates' scripts
      one for one. */
  lemma {:induction false} ScriptsOfFullUpdates(ms: seq<Message>)
    requires forall i :: 0 <= i < |ms| ==> IsFullUpdate(ms[i])
    ensures |Scripts(ms)| == |ms|
    ensures forall i :: 0 <= i < |ms| ==> ms[i].js == Some(Scripts(ms)[i])
    decreases |ms|
  {
    if ms != [] {
      ScriptsOfFullUpdates(ms[1..]);
      assert IsFullUpdate(ms[0]);
    }
  }

  /**
   * The preview frame and its host side. The host keeps the loaded flag and
   * the document the frame was navigated to; posted messages wait in
   * `outbox` until the frame's event loop delivers them to the slots.
   */
  class Channel {
    /** `iframeLoadedRef.current`: starts false and is only ever set to true. */
    var loaded: bool
    /** The library list of the bootstrap document the frame was last
        navigated to, so that the frame shows
        `Libraries.BootstrapDocument(shownLibraries.value)`; none before the
        first navigation. */
    var shownLibraries: Option<seq<string>>
    /** Posted messages not yet delivered, oldest first. */
    var outbox: seq<Message>
    var style: string
    var root: string
    var script: string
    var runs: seq<string>

    /** The receiver's slots. */
    function Current(): Slots
      reads this
    {
      Slots(style, root, script, runs)
    }

    /** The host only ever posts full updates, and only once loaded. */
    predicate Valid()
      reads this
    {
      (forall i :: 0 <= i < |outbox| ==> IsFullUpdate(outbox[i])) && (outbox != [] ==> loaded)
    }

    constructor ()
      ensures Valid() && !loaded && outbox == [] && Current() == EmptySlots && shownLibraries == None
    {
      loaded, shownLibraries, outbox := false, None, [];
      style, root, script, runs := "", "", "", [];
    }

    /** The initialising effect, run on mount and whenever the library list
        changes: with a frame element present, the frame is navigated to a
        fresh bootstrap document for the libraries (with empty slots; the
        messages still in flight to the old document are lost) and the flag
        is set; without one nothing happens. */
    method Initialize(mounted: bool, libs: seq<string>)
      requires Valid()
      modifies this
      ensures Valid()
      ensures old(loaded) ==> loaded
      ensures !mounted ==> loaded == old(loaded) && shownLibraries == old(shownLibraries)
                           && outbox == old(outbox) && Current() == old(Current())
      ensures mounted ==> loaded && shownLibraries == Some(libs)
                          && outbox == [] && Current() == EmptySlots
    {
      if mounted {
        shownLibraries := Some(libs);
        loaded := true;
        outbox := [];
        style, root, script, runs := "", "", "", [];
      }
    }

    /** `handleIframeLoad`: sets the flag and, if the frame has a window,
        posts the current artifact. */
    method HandleLoad(hasWindow: bool, src: Artifacts.Sources, transform: string -> Artifacts.TransformOutcome)
      requires Valid()
      modifies this
      ensures Valid() && loaded
      ensures shownLibraries == old(shownLibraries) && Current() == old(Current())
      ensures outbox == old(outbox) + (if hasWindow then [FullUpdate(Artifacts.Compile(src, transform))] else [])
    {
      loaded := true;
      if hasWindow {
        Post(FullUpdate(Artifacts.Compile(src, transform)));
      }
    }

    /** The update effect, run after a buffer changes: it posts the current
        artifact exactly when the frame has a window and the flag is set. */
    method PushUpdate(hasWindow: bool, src: Artifacts.Sources, transform: string -> Artifacts.TransformOutcome)
      requires Valid()
      modifies this
      ensures Valid()
      ensures loaded == old(loaded) && shownLibraries == old(shownLibraries) && Current() == old(Current())
      ensures outbox == old(outbox) + (if hasWindow && loaded then [FullUpdate(Artifacts.Compile(src, transform))] else [])
    {
      if hasWindow && loaded {
        Post(FullUpdate(Artifacts.Compile(src, transform)));
      }
    }

    /** `postMessage` of a full update once the flag is set: the message
        joins the end of the queue. */
    method Post(m: Message)
      requires Valid() && loaded && IsFullUpdate(m)
      modifies this
      ensures Valid()
      ensures loaded && shownLibraries == old(shownLibraries) && Current() == old(Current())
      ensures outbox == old(outbox) + [m]
    {
      outbox := outbox + [m];
    }

    /** The frame's message listener with `updatePreview`: a message of
        another type is ignored, an update overwrites the slots of the fields
        it carries and evaluates its script. */
    method OnMessage(m: Message)
      modifies this
      ensures Current() == Applied(old(Current()), m)
      ensures loaded == old(loaded) && shownLibraries == old(shownLibraries) && outbox == old(outbox)
    {
      if m.kind == "update" {
        if m.css.Some? {
          style := m.css.value;
        }
        if m.html.Some? {
          root := m.html.value;
        }
        if m.js.Some? {
          script := m.js.value;
          runs := runs + [m.js.value];
        }
      }
    }

    /** The frame's event loop delivering the oldest posted message, if any. */
    method Deliver()
      requires Valid()
      modifies this
      ensures Valid()
      ensures loaded == old(loaded) && shownLibraries == old(shownLibraries)
      ensures old(outbox) == [] ==> outbox == [] && Current() == old(Current())
      ensures old(outbox) != [] ==> outbox == old(outbox)[1..] && Current() == Applied(old(Current()), old(outbox)[0])
    {
      if outbox != [] {
        var m := outbox[0];
        outbox := outbox[1..];
        OnMessage(m);
      }
    }

    /** Delivering every posted message: the slots end as the replay of the
        posted messages, and so show the last artifact posted. */
    method DeliverAll()
      requires Valid()
      modifies this
      ensures Valid() && outbox == []
      ensures loaded == old(loaded) && shownLibraries == old(shownLibraries)
      ensures Current() == Replay(old(Current()), old(outbox))
    {
      while outbox != []
        invariant Valid()
        invariant loaded == old(loaded) && shownLibraries == old(shownLibraries)
        invariant Replay(old(Current()), old(outbox)) == Replay(Current(), outbox)
        decreases |outbox|
      {
        Deliver();
      }
    }
  }
}
