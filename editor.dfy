/**
 * The editor's buffers and its auto-typing session (client/App.tsx): the
 * HTML, CSS and JavaScript buffers the tabs show, the SCSS and TypeScript
 * buffers, the edit router `handleEditorChange`, and the session that
 * `startAutoTyping` opens, whose timer ticks copy growing prefixes of the
 * script into the target buffer until the script is exhausted.
 *
 * The tick closure is created by `startAutoTyping` and reads the paused flag
 * as it was when the session started: toggling pause during a session
 * changes the flag the buttons show, not the session. The model keeps that
 * captured value as `sessionPaused`.
 */
module Editor {
  import opened JsText
  import Artifacts

  /** The three editor tabs, and the three auto-typing targets. */
  datatype Tab = Html | Css | Js

  const DefaultHtml := "<div class=\"container\">\n  <h1>Welcome to Code Editor</h1>\n  <p>Start coding here...</p>\n</div>"
  const DefaultCss := ".container {\n  display: flex;\n  flex-direction: column;\n  align-items: center;\n  justify-content: center;\n  min-height: 100vh;\n  font-family: Arial, sans-serif;\n  background: linear-gradient(135deg, #667eea 0%, #764ba2 100%);\n  color: white;\n}\n\nh1 {\n  font-size: 2.5rem;\n  margin-bottom: 1rem;\n}"
  const DefaultJs := "console.log(\"Welcome to the Code Editor!\");"

  class Workspace {
    var html: string
    var css: string
    var scss: string
    var javascript: string
    var typescript: string
    var activeTab: Tab
    /** `isAutoTyping`: a session is running and its timer is pending. */
    var typing: bool
    /** `autoTypingPaused`, the flag the pause button toggles. */
    var paused: bool
    /** `autoTypingIndexRef.current`. */
    var cursor: nat
    /** The script and target the running session's closure captured. */
    var script: string
    var target: Tab
    /** The paused flag the running session's closure captured. */
    var sessionPaused: bool

    /** The cursor never runs past the script. */
    predicate Valid()
      reads this
    {
      cursor <= |script|
    }

    /** The buffer a tab or target shows. */
    function Buffer(t: Tab): string
      reads this
    {
      match t
      case Html => html
      case Css => css
      case Js => javascript
    }

    /** `currentCode`: the buffer of the active tab. */
    function CurrentCode(): (r: string)
      reads this
      ensures r == Buffer(activeTab)
    {
      if activeTab == Html then html else if activeTab == Css then css else javascript
    }

    /** The five buffers, as the preview and the export read them. */
    function Sources(): Artifacts.Sources
      reads this
    {
      Artifacts.Sources(html, css, scss, javascript, typescript)
    }

    /** The initial state: the default project and no session. */
    constructor ()
      ensures Valid() && !typing && !paused && activeTab == Html
      ensures Sources() == Artifacts.Sources(DefaultHtml, DefaultCss, "", DefaultJs, "")
    {
      html, css, scss, javascript, typescript := DefaultHtml, DefaultCss, "", DefaultJs, "";
      activeTab := Html;
      typing, paused, cursor := false, false, 0;
      script, target, sessionPaused := "", Html, false;
    }

    /** A tab button: shows another buffer and changes nothing else. */
    method SelectTab(t: Tab)
      modifies this
      ensures activeTab == t && CurrentCode() == Buffer(t)
      ensures Sources() == old(Sources())
      ensures typing == old(typing) && paused == old(paused) && cursor == old(cursor)
      ensures script == old(script) && target == old(target) && sessionPaused == old(sessionPaused)
    {
      activeTab := t;
    }

    /** `handleEditorChange`: an undefined value is ignored; otherwise the
        value replaces the buffer of the tab it came from, and only that. */
    method HandleEditorChange(value: Option<string>, t: Tab)
      modifies this
      ensures value.None? ==> Sources() == old(Sources())
      ensures value.Some? ==> Buffer(t) == value.value
      ensures OthersKept(t)
      ensures scss == old(scss) && typescript == old(typescript) && activeTab == old(activeTab)
      ensures typing == old(typing) && paused == old(paused) && cursor == old(cursor)
      ensures script == old(script) && target == old(target) && sessionPaused == old(sessionPaused)
    {
      if value.Some? {
        WriteBuffer(t, value.value);
      }
    }

    /** Sets the buffer of one tab, leaving every other field as it was. */
    method WriteBuffer(t: Tab, text: string)
      modifies this
      ensures Buffer(t) == text
      ensures OthersKept(t)
      ensures scss == old(scss) && typescript == old(typescript) && activeTab == old(activeTab)
      ensures typing == old(typing) && paused == old(paused) && cursor == old(cursor)
      ensures script == old(script) && target == old(target) && sessionPaused == old(sessionPaused)
    {
      match t
      case Html => html := text;
      case Css => css := text;
      case Js => javascript := text;
    }

    /** One run of the session's tick: with the cursor before the end and
        the captured flag clear, the prefix of the script up to and including
        the cursor's character replaces the target buffer and the cursor
        advances; with the captured flag set nothing changes (the tick only
        reschedules itself); at the end of the script the session ends. No
        tick runs once the session has ended or been stopped. */
    method Tick()
      requires Valid()
      modifies this
      ensures Valid()
      ensures scss == old(scss) && typescript == old(typescript) && activeTab == old(activeTab)
      ensures paused == old(paused) && script == old(script) && target == old(target) && sessionPaused == old(sessionPaused)
      ensures !old(typing) || (old(cursor) < |script| && sessionPaused) ==>
                BuffersKept() && typing == old(typing) && cursor == old(cursor)
      ensures old(typing) && old(cursor) < |script| && !sessionPaused ==>
                && typing && cursor == old(cursor) + 1
                && Buffer(target) == script[..cursor]
                && OthersKept(target)
      ensures old(typing) && old(cursor) == |script| ==> !typing && cursor == old(cursor) && BuffersKept()
    {
      if typing {
        if cursor < |script| {
          if !sessionPaused {
            WriteBuffer(target, script[..cursor + 1]);
            cursor := cursor + 1;
          }
        } else {
          typing := false;
        }
      }
    }

    /** No buffer but the one of tab `t` differs from the state before the
        call. */
    twostate predicate OthersKept(t: Tab)
      reads this
    {
      && (t != Html ==> html == old(html))
      && (t != Css ==> css == old(css))
      && (t != Js ==> javascript == old(javascript))
    }

    /** No editor buffer differs from the state before the call. */
    twostate predicate BuffersKept()
      reads this
    {
      html == old(html) && css == old(css) && javascript == old(javascript)
    }

    /** `startAutoTyping` with the script and target shown in the panel. A
        blank script is refused and nothing changes. Otherwise the session
        starts with the cursor at 0, captures the script, the target and the
        current paused flag, clears the paused flag, and runs its first tick
        at once. The play button is disabled while a session runs. */
    method Start(code: string, t: Tab)
      requires Valid() && !typing
      modifies this
      ensures Valid()
      ensures scss == old(scss) && typescript == old(typescript) && activeTab == old(activeTab)
      ensures IsBlank(code) ==>
                && BuffersKept() && !typing && paused == old(paused) && cursor == old(cursor)
                && script == old(script) && target == old(target) && sessionPaused == old(sessionPaused)
      ensures !IsBlank(code) ==>
                && typing && !paused && script == code && target == t && sessionPaused == old(paused)
                && OthersKept(t)
      ensures !IsBlank(code) && old(paused) ==> cursor == 0 && BuffersKept()
      ensures !IsBlank(code) && !old(paused) ==> cursor == 1 && Buffer(t) == code[..1]
    {
      if !IsBlank(code) {
        NonBlankIsNonEmpty(code);
        typing, sessionPaused, paused := true, paused, false;
        script, target, cursor := code, t, 0;
        Tick();
      }
    }

    /** `pauseAutoTyping`: flips the paused flag the buttons show. The
        running session keeps the value it captured, so its ticks go on. The
        button exists only while a session runs. */
    method Pause()
      requires Valid() && typing
      modifies this
      ensures Valid()
      ensures paused == !old(paused)
      ensures Sources() == old(Sources()) && activeTab == old(activeTab)
      ensures typing == old(typing) && cursor == old(cursor)
      ensures script == old(script) && target == old(target) && sessionPaused == old(sessionPaused)
    {
      paused := !paused;
    }

    /** `stopAutoTyping`: cancels the pending tick, ends the session, clears
        the paused flag and resets the cursor; no buffer changes. */
    method Stop()
      requires Valid() && typing
      modifies this
      ensures Valid()
      ensures !typing && !paused && cursor == 0
      ensures Sources() == old(Sources()) && activeTab == old(activeTab)
      ensures script == old(script) && target == old(target) && sessionPaused == old(sessionPaused)
    {
      typing, paused, cursor := false, false, 0;
    }

    /** `k` ticks of a running, unpaused session that does not reach the end:
        afterwards the target buffer holds the first `cursor` characters of
        the script, the cursor has moved `k` places, and the other buffers
        are as they were. */
    method TickTimes(k: nat)
      requires Valid() && typing && !sessionPaused && cursor + k <= |script|
      modifies this
      ensures Valid() && typing && cursor == old(cursor) + k
      ensures k > 0 ==> Buffer(target) == script[..cursor]
      ensures k == 0 ==> Buffer(target) == old(Buffer(target))
      ensures OthersKept(target)
      ensures scss == old(scss) && typescript == old(typescript) && activeTab == old(activeTab)
      ensures paused == old(paused) && script == old(script) && target == old(target) && sessionPaused == old(sessionPaused)
    {
      var i := 0;
      while i < k
        invariant 0 <= i <= k
        invariant Valid() && typing && cursor == old(cursor) + i
        invariant i > 0 ==> Buffer(target) == script[..cursor]
        invariant i == 0 ==> Buffer(target) == old(Buffer(target))
        invariant OthersKept(target)
        invariant scss == old(scss) && typescript == old(typescript) && activeTab == old(activeTab)
        invariant paused == old(paused) && script == old(script) && target == old(target) && sessionPaused == old(sessionPaused)
      {
        Tick();
        i := i + 1;
      }
    }

    /** A running, unpaused session left alone to the end: the target buffer
        ends holding the whole script, the session is over with the cursor
        at the end of the script, and the other buffers are as they were. */
    method RunToCompletion()
      requires Valid() && typing && !sessionPaused && cursor < |script|
      modifies this
      ensures Valid() && !typing && cursor == |script|
      ensures Buffer(target) == script
      ensures OthersKept(target)
      ensures scss == old(scss) && typescript == old(typescript) && activeTab == old(activeTab)
      ensures paused == old(paused) && script == old(script) && target == old(target)
    {
      TickTimes(|script| - cursor);
      assert script[..cursor] == script;
      Tick();
    }
  }

  /** A whole session on an idle workspace whose paused flag is clear:
      whatever the non-blank script and target, the target ends up holding
      the script and the other buffers are untouched. */
  method TypeWholeScript(w: Workspace, code: string, t: Tab)
    requires w.Valid() && !w.typing && !w.paused && !IsBlank(code)
    modifies w
    ensures w.Valid() && !w.typing && w.Buffer(t) == code
    ensures w.html == (if t == Html then code else old(w.html))
    ensures w.css == (if t == Css then code else old(w.css))
    ensures w.javascript == (if t == Js then code else old(w.javascript))
  {
    w.Start(code, t);
    if w.cursor < |w.script| {
      w.RunToCompletion();
    } else {
      assert w.Buffer(t) == code;
      w.Tick();
    }
  }

  /** Pausing during a session does not hold it up: after starting a
      two-character script, pausing and one more tick, the target has both
      characters. */
  method PauseMidSession(w: Workspace, a: char, b: char, t: Tab)
    requires w.Valid() && !w.typing && !w.paused && !IsJsWhitespace(a)
    modifies w
    ensures w.Buffer(t) == [a, b] && w.typing && w.paused
  {
    LeadingCharNotBlank([a, b]);
    w.Start([a, b], t);
    w.Pause();
    w.Tick();
  }

  /** A session started while the paused flag is still set from an earlier
      session (one that was paused and then ran to its end) never types: its
      ticks leave the target as the earlier session left it, and the cursor
      stays at 0. */
  method StalePause(w: Workspace, a: char, x: char, y: char, t: Tab)
    requires w.Valid() && !w.typing && !w.paused && !IsJsWhitespace(a) && !IsJsWhitespace(x)
    modifies w
    ensures w.Buffer(t) == [a] && w.cursor == 0 && w.typing && w.sessionPaused
  {
    LeadingCharNotBlank([a]);
    LeadingCharNotBlank([x, y]);
    w.Start([a], t);
    w.Pause();
    w.Tick();
    assert !w.typing && w.paused && w.Buffer(t) == [a];
    w.Start([x, y], t);
    w.Tick();
    w.Tick();
  }
}
