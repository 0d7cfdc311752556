# Code editor core, modelled in Dafny

A model of the logic of a browser code editor with a live preview
(`client/App.tsx`) and its interface translations (`client/i18n.ts`):

- the style "compiler" `compileSCSS`, which wraps every SCSS variable
  declaration head (`$name:`) in a CSS comment;
- the TypeScript adapter `compileTypeScript` and the choice of the effective
  style (`compileSCSS(scss) || css`) and script (`compileTypeScript(ts) || js`)
  for the preview and for the downloaded project;
- the library list (`addLibrary`, `removeLibrary`), the tag each library URL
  becomes, and the documents the tags are spliced into;
- the preview protocol: the host's loaded flag and its full `update` pushes,
  and the frame's listener with `updatePreview`, which overwrites only the
  slots whose fields a message carries;
- the editor buffers, the edit router `handleEditorChange`, the active tab,
  and the auto-typing session (start, tick, pause, stop);
- `getTranslation`, which walks a dotted key through the constant
  `translations` table and falls back to the key.

Modules: `JsText` (the JavaScript string built-ins: `trim`, `endsWith`,
`join`, `split`), `Scss`, `Libraries`, `Artifacts`, `Preview` (class
`Channel`), `Editor` (class `Workspace`) and `I18n`.

Points where the model makes the code's behaviour explicit:

- The tick closure of `startAutoTyping` reads the paused flag of the render
  that created it (client/App.tsx:186). Toggling pause during a session
  therefore does not stop the typing, and a session started while the flag is
  still set from an earlier session never types. `Workspace` keeps the
  captured value as `sessionPaused`; `PauseMidSession` and `StalePause`
  show both effects.
- The initialising effect sets the loaded flag as soon as it navigates the
  frame (client/App.tsx:417), before the frame's `load` event. So the host
  posts updates while the new document is still loading. In a browser those
  posts reach the document being replaced and are lost; the new document
  shows the buffers only from the `load` push on. The model's navigation is
  instantaneous, so it delivers such posts to the new, empty slots instead
  (see "## Left out").
- `getTranslation` is typed to return a string but returns whatever truthy
  value the walk reaches: a sub-table object for `"tabs"`, a string's length
  for `"title.length"`, one character for `"title.0"`. The model's result is
  a JavaScript value, so these cases are visible.

## Model

| member | source | states |
|---|---|---|
| JsText.Trim | client/App.tsx:96 | the result is a window `s[i..j]` of the text with only whitespace outside it, and it neither begins nor ends with whitespace (`trim` as the blank checks use it) |
| JsText.IsBlank | client/App.tsx:96 | the blank test `!s.trim()`: the trimmed text is empty (characterised by `BlankIffAllWhitespace`) |
| JsText.BlankIffAllWhitespace | client/App.tsx:96 | a text is blank exactly when every character is JavaScript whitespace |
| JsText.LeadingCharNotBlank | client/App.tsx:175 | a script whose first character is not whitespace passes the blank check |
| JsText.Split | client/i18n.ts:115 | `split('.')` gives at least one piece, no piece holds a dot, and joining the pieces by dots gives the key back |
| JsText.SplitUnique | client/i18n.ts:115 | any dot-free pieces that join back to the key are the ones `split` gives |
| JsText.EndsWith | client/App.tsx:365-370 | `endsWith`: the text's last characters are the suffix (used by `LibraryTag`) |
| JsText.Join | client/App.tsx:372 | `Array.prototype.join`: the parts with one separator between neighbours (its split property is `JoinAppend`) |
| JsText.JoinAppend | client/App.tsx:292-301 | joining two non-empty lists puts one separator between their joined halves |
| Scss.Scan | client/App.tsx:101 | the global replacement's walk: a match where one starts, one kept character otherwise (shown leftmost by `ScanIsLeftmost`, source-preserving by `ScanKeepsSource`) |
| Scss.Render | client/App.tsx:101 | each match replaced by `/*$&*/`, every other character kept (its length is `RenderLength`) |
| Scss.IsLeftmostScan | client/App.tsx:101 | the independent reference reading: each piece a pattern match where one starts, otherwise a single character at which no match starts |
| Scss.NameRun | client/App.tsx:101 | the greedy `[\w-]+` takes the longest run of name characters |
| Scss.MatchAt | client/App.tsx:101 | a match found at the start of the text is a `$`, name characters and a `:` |
| Scss.MatchAtIsTheMatch | client/App.tsx:101 | the pattern matches a prefix exactly when the scanner reports a match of that length |
| Scss.ScanIsLeftmost | client/App.tsx:101 | the scan is the one leftmost, non-overlapping reading a global replacement makes |
| Scss.ScanKeepsSource | client/App.tsx:99-102 | the pieces of the scan give the input back, every character kept and in order |
| Scss.RenderLength | client/App.tsx:101 | the output is 4 characters longer than the input per match |
| Scss.NoDollarNoMatch | client/App.tsx:101 | a text without `$` has no match and comes back unchanged |
| Scss.CompileScss | client/App.tsx:95-107 | blank input gives `""`; otherwise every match is wrapped in `/*…*/`, the result is non-empty, is 4 characters longer per match, and equals an input without `$` |
| Libraries.AddLibrary | client/App.tsx:347-352 | a non-empty URL not yet listed is appended and the selection cleared; otherwise nothing changes |
| Libraries.RemoveLibrary | client/App.tsx:355-357 | `filter((l) => l !== lib)`, entry by entry in list order (its properties are `RemoveMembers`, `RemoveDistributes`, `RemoveAbsent`, `RemoveAt`) |
| Libraries.RemoveMembers | client/App.tsx:355-357 | the list left by a removal holds exactly the listed URLs other than the removed one, and is no longer |
| Libraries.RemoveDistributes | client/App.tsx:355-357 | removal works piece by piece, so the kept entries keep their relative order |
| Libraries.RemoveAbsent | client/App.tsx:355-357 | removing an unlisted URL leaves the list as it is |
| Libraries.RemoveBetween | client/App.tsx:355-357 | removing a URL that occurs once joins the stretches before and after it |
| Libraries.RemoveAt | client/App.tsx:355-357 | in a duplicate-free list, removing a URL takes out exactly its one entry |
| Libraries.AddKeepsNoDuplicates | client/App.tsx:347-352 | adding keeps the list free of duplicates |
| Libraries.RemoveKeepsNoDuplicates | client/App.tsx:355-357 | removing keeps the list free of duplicates |
| Libraries.AddThenRemove | client/App.tsx:347-357 | removing a URL just added gives back the earlier list |
| Libraries.LibraryTag | client/App.tsx:364-371 | a URL's tag is empty exactly when the URL ends in neither `.css` nor `.js` |
| Libraries.Tags | client/App.tsx:363-372 | one tag per library, in list order, each chosen by the URL's suffix |
| Libraries.TagBlock | client/App.tsx:363-372 | the tags of the libraries joined by the separator (`"\n"` in the preview, `"\n  "` in the export; its growth is `TagBlockAppend`) |
| Libraries.BootstrapDocument | client/App.tsx:374-412 | the preview document: the fixed head, the library tag block, then the slots and the listener script |
| Libraries.ExportIndexHtml | client/App.tsx:303-316 | the exported `index.html`: the fixed head with the `style.css` link, the tag block, the markup and the `script.js` element |
| Libraries.TagBlockAppend | client/App.tsx:292-301 | a library added at the end adds its tag at the end of the block, after one separator |
| Libraries.IgnoredUrlKeepsSeparator | client/App.tsx:363-372 | adding a URL with neither suffix to a non-empty list adds exactly one separator and no tag to the block |
| Artifacts.OrElse | client/App.tsx:289-290 | `a \|\| b` on a string or null is `a` when it is a non-empty string, `b` otherwise |
| Artifacts.CompileTypeScript | client/App.tsx:110-122 | blank input gives `""`; otherwise the transformer's code, null when it gives none, the input when it throws |
| Artifacts.EffectiveCss | client/App.tsx:289 | a non-blank SCSS buffer gives its compilation, never empty; a blank one gives the CSS buffer |
| Artifacts.EffectiveJs | client/App.tsx:290 | a blank TypeScript buffer gives the JavaScript buffer; otherwise non-empty emitted code, the TypeScript text on a throw, the JavaScript buffer on empty or missing code |
| Artifacts.EffectiveJsOrigin | client/App.tsx:290 | the effective script is the JavaScript buffer, the TypeScript buffer or code the transformer emitted |
| Artifacts.Compile | client/App.tsx:428-429 | the artifact pushed to the preview: the markup buffer with the effective style and script (its cases are `EffectiveCss` and `EffectiveJs`) |
| Artifacts.ExportBundle | client/App.tsx:286-320 | the archive's `style.css` and `script.js` are the effective style and script, the same the preview is sent |
| Preview.FullUpdate | client/App.tsx:432-440 | the host's message is an `update` carrying all three fields of the artifact |
| Preview.Applied | client/App.tsx:392-409 | the listener and `updatePreview` on one message (its cases are `AppliedFields`) |
| Preview.Replay | client/App.tsx:405-409 | the slots after messages delivered in order (its properties are `ReplayAppend`, `LastFullUpdateWins`, `RunsRecordScripts`) |
| Preview.AppliedFields | client/App.tsx:392-409 | other message types are ignored; an update overwrites exactly the slots of the fields it carries and evaluates its script |
| Preview.ReplayAppend | client/App.tsx:405-409 | delivering two batches is delivering the first, then the second |
| Preview.FullUpdateOverwrites | client/App.tsx:392-403 | a full update sets all three slots whatever they held |
| Preview.IgnoredMessages | client/App.tsx:405-409 | messages of other types change nothing |
| Preview.LastFullUpdateWins | client/App.tsx:392-409 | after a full update is delivered the slots show it, whatever came earlier |
| Preview.RunsRecordScripts | client/App.tsx:399-402 | the frame evaluates each carried script once, in delivery order, and nothing else |
| Preview.ScriptsOfFullUpdates | client/App.tsx:399-402 | over full updates, the evaluated scripts are the updates' scripts one for one |
| Preview.Channel.constructor | client/App.tsx:90 | the loaded flag starts false and nothing is posted |
| Preview.Channel.Initialize | client/App.tsx:360-421 | with a frame element, the frame is navigated to the bootstrap document for the libraries and the flag is set; otherwise nothing changes |
| Preview.Channel.HandleLoad | client/App.tsx:425-441 | the flag is set and, if the frame has a window, the current artifact is posted as a full update |
| Preview.Channel.PushUpdate | client/App.tsx:443-456 | a full update of the current artifact is posted exactly when the frame has a window and the flag is set |
| Preview.Channel.Post | client/App.tsx:433-440 | a posted full update joins the end of the queue and nothing else changes |
| Preview.Channel.OnMessage | client/App.tsx:392-409 | the slots become the listener's result for the message |
| Preview.Channel.Deliver | client/App.tsx:405-409 | the oldest posted message is delivered to the slots |
| Preview.Channel.DeliverAll | client/App.tsx:405-409 | after delivering every posted message the slots are their replay |
| Editor.Workspace.constructor | client/App.tsx:27-34 | the buffers start as the default project and no session runs |
| Editor.Workspace.CurrentCode | client/App.tsx:470-474 | the editor shows the buffer of the active tab |
| Editor.Workspace.SelectTab | client/App.tsx:722-734 | a tab button changes the active tab and nothing else |
| Editor.Workspace.HandleEditorChange | client/App.tsx:337-344 | an undefined value is ignored; otherwise only the buffer of the tab it came from changes |
| Editor.Workspace.WriteBuffer | client/App.tsx:192-198 | the buffer of the given tab becomes the text and every other buffer and field stays as it was |
| Editor.Workspace.Tick | client/App.tsx:184-211 | before the end with the captured pause clear, the target gets the script's prefix through the cursor and the cursor advances; at the end the session ends; buffers do not change otherwise |
| Editor.Workspace.Start | client/App.tsx:174-214 | a blank script changes nothing; otherwise the cursor starts at 0, the paused flag is captured and cleared, and the first tick runs at once |
| Editor.Workspace.Pause | client/App.tsx:216-218 | only the paused flag the buttons show flips; the session is unaffected |
| Editor.Workspace.Stop | client/App.tsx:220-227 | the session ends, the paused flag clears and the cursor returns to 0; no buffer changes |
| Editor.Workspace.TickTimes | client/App.tsx:184-206 | after k ticks of an unpaused session the target holds the first cursor characters of the script and the cursor moved k places |
| Editor.Workspace.RunToCompletion | client/App.tsx:184-211 | left alone, an unpaused session ends with the whole script in the target and the other buffers untouched |
| Editor.TypeWholeScript | client/App.tsx:174-214 | on an idle, unpaused workspace a whole session types any non-blank script into its target and leaves the other buffers alone |
| Editor.PauseMidSession | client/App.tsx:186 | pausing mid-session does not stop the typing |
| Editor.StalePause | client/App.tsx:179-186 | a session started while the paused flag is left set from an earlier session never advances |
| I18n.OwnProperty | client/i18n.ts:119 | a name the object does not have looks up `undefined` |
| I18n.OwnPropertyAt | client/i18n.ts:119 | the property found is the one at the first position of that name, the only one in an object without repeated names |
| I18n.Lookup | client/i18n.ts:119 | `value?.[k]`: undefined and numbers give undefined, objects answer their own properties, strings their length, the one-character string at an in-range canonical index, and undefined otherwise |
| I18n.Resolve | client/i18n.ts:118-120 | `value` after the loop has applied `value?.[k]` for each segment in turn (its properties are `ResolveAppend`, `UndefinedStays`) |
| I18n.ResolveAppend | client/i18n.ts:118-120 | walking a path in two parts walks the second part from where the first ends |
| I18n.UndefinedStays | client/i18n.ts:119 | after a miss every later segment leaves the value undefined |
| I18n.Table | client/i18n.ts:116 | `translations[lang]`: the English or the Arabic table |
| I18n.Segments | client/i18n.ts:115 | the key's segments `key.split('.')` (their properties are `JsText.Split` and `JsText.SplitUnique`) |
| I18n.Translate | client/i18n.ts:114-123 | `value \|\| key`: the value the segments reach when it is truthy, the key itself when it is not |
| I18n.GetTranslation | client/i18n.ts:114-123 | the loop returns what `Translate` describes |
| I18n.MissGivesKey | client/i18n.ts:119-122 | a key with a segment that finds nothing returns the key |
| I18n.UnknownNameGivesKey | client/i18n.ts:119-122 | a segment naming no property of the sub-table reached returns the key |
| I18n.PastLeafGivesKey | client/i18n.ts:119-122 | a segment past a leaf string, other than its length or a character index, returns the key |
| I18n.TitleLeaves | client/i18n.ts:5 | `title` is `Code Editor` in English and `محرر الأكواد` in Arabic |
| I18n.NestedLeaf | client/i18n.ts:51 | `messages.saved` is `Project saved successfully` in English |
| I18n.SubTableIsReturned | client/i18n.ts:7-11 | `tabs` returns the sub-table object, not a string |
| I18n.PastLeafName | client/i18n.ts:119-122 | `title.x` returns `title.x` |
| I18n.PastLeafLength | client/i18n.ts:119-122 | `title.length` returns the number 11 |
| I18n.PastLeafIndex | client/i18n.ts:119-122 | `title.0` returns `C` |
| I18n.EntryAtResolves | client/i18n.ts:118-120 | a path through the table's objects is what the loop walks |
| I18n.SameShapeEntries | client/i18n.ts:4-111 | tables of the same shape have the same paths, to entries of the same shape |
| I18n.EntriesLeavesNonEmpty | client/i18n.ts:4-111 | every entry of a table with non-empty leaves has non-empty leaves |
| I18n.TablesAgree | client/i18n.ts:4-111 | the English and Arabic tables have the same key paths, and every leaf of either is non-empty |
| I18n.LeafKeysAgree | client/i18n.ts:4-111 | a key is a leaf key in one language exactly when it is one in the other |
| I18n.LeafKeyTranslates | client/i18n.ts:122 | a leaf key returns its non-empty leaf string, never the key's fallback |

## Left out

- Babel's TypeScript transform is a foreign library: it is the parameter `transform`, whose outcome (code, no code, or a throw) the model leaves free.
- Keyboard sounds (Web Audio, floating-point gains and frequencies, `Math.random`) are left out.
- Project save and load (`localStorage`, JSON) are left out; the translated toasts they show are covered by `getTranslation`.
- The ZIP mechanics (JSZip, Blob, object URLs, the download link) are left out. `ExportBundle` gives the three file contents. The page template the tags go into is a constant, with no lemma about its text.
- `postMessage` is modelled as an in-order queue. Frame navigation is modelled as instantaneous: `Initialize` resets the slots and drops messages still in flight. The timing of the `load` event is whenever `HandleLoad` is called. Revoking the Blob URL is left out.
- `eval` of the user script is recorded as an entry in `runs`; its effects are left out.
- Timers are discrete calls to `Tick`. The period `1000 / autoTypingSpeed` is left out, as are toasts, React rendering and the JSX panels.
- Preview.Channel.OnMessage: the listener's messages carry strings or undefined fields only. Other field values (null, numbers) and non-object message data are left out.
- I18n.Lookup: members strings and objects inherit from their prototypes (`toString`, `constructor`, …) are left out, as are keys reaching them.
- Editor.Workspace.Start: requires that no session is running, because the play button is disabled while one runs. Pause and Stop likewise require a running session, because their buttons exist only then.
- Scss.CompileScss: the `catch` branch that returns the input is unreachable, since the replacement cannot throw, so it is not modelled.
- Posts made between a navigation and the new document's `load` event are delivered to the new document's slots, where a browser loses them with the old document. After the `load` push, which `HandleLoad` models, the style, root and script slots agree with the browser again, but `runs` still lists the scripts of those lost posts. On every mount the update effect posts once after the flag is set at client/App.tsx:417, so the model's `runs` holds that script twice where the browser evaluates it once.
- JavaScript strings are sequences of UTF-16 code units; the model's `string` is a sequence of Unicode scalar values. For text with characters outside the Basic Multilingual Plane this changes two things. Auto-typing (`autoTypingCode.length` and `substring(0, i + 1)`, client/App.tsx:185 and 190) takes two ticks per such character in the source, and the first writes a lone surrogate; the model's `Tick` types it in one. `I18n.Lookup` counts a string's `length` and indices in code units in the source, and in characters here. For text within the Basic Multilingual Plane the two agree.
- I18n.OwnProperty: with a repeated property name it returns the first value, where a JavaScript object literal keeps the last. The translation tables repeat no name, so lookups in them agree.
