/**
 * What the editor hands to the preview and to the export (client/App.tsx):
 * the effective style `compileSCSS(scss) || css` and the effective script
 * `compileTypeScript(ts) || js`, chosen the same way for the `load` push, the
 * update push and the downloaded project.
 */
module Artifacts {
  import opened JsText
  import Scss
  import Libraries

  /** The five editor buffers. */
  datatype Sources = Sources(html: string, css: string, scss: string, javascript: string, typescript: string)

  /** What the TypeScript transformer does with a program: it emits code, it
      returns a result without code (`result.code` is null), or it throws.
      The transformer itself stands outside the model and is a parameter. */
  datatype TransformOutcome = Emitted(code: string) | NoCode | Threw

  /** JavaScript's `a || b` on a string-or-null `a`: `a` unless it is null or
      the empty, falsy, string. */
  function OrElse(a: Option<string>, b: string): (r: string)
    ensures a.Some? && a.value != "" ==> r == a.value
    ensures a == None || a == Some("") ==> r == b
  {
    if a.Some? && a.value != "" then a.value else b
  }

  /** `compileTypeScript`: blank input gives the empty string, otherwise the
      transformer's code, or the input itself when the transformer throws. */
  function CompileTypeScript(ts: string, transform: string -> TransformOutcome): (r: Option<string>)
    ensures IsBlank(ts) ==> r == Some("")
    ensures r == None <==> !IsBlank(ts) && transform(ts) == NoCode
    ensures !IsBlank(ts) && transform(ts).Emitted? ==> r == Some(transform(ts).code)
    ensures !IsBlank(ts) && transform(ts) == Threw ==> r == Some(ts)
    ensures r.Some? && r.value != "" && r.value != ts ==> transform(ts) == Emitted(r.value)
  {
    if IsBlank(ts) then Some("")
    else match transform(ts)
      case Emitted(code) => Some(code)
      case NoCode => None
      case Threw => Some(ts)
  }

  /** The effective style. A non-blank SCSS buffer always wins, and its
      compilation is never empty; a blank one falls back to the CSS buffer. */
  function EffectiveCss(src: Sources): (r: string)
    ensures !IsBlank(src.scss) ==> r == Scss.CompileScss(src.scss) && r != ""
    ensures !IsBlank(src.scss) ==> r == Scss.Render(Scss.Scan(src.scss))
    ensures IsBlank(src.scss) ==> r == src.css
  {
    OrElse(Some(Scss.CompileScss(src.scss)), src.css)
  }

  /** The effective script. A blank TypeScript buffer leaves the JavaScript
      buffer in force; otherwise the transformer's non-empty code is used,
      the TypeScript text itself when the transformer throws, and the
      JavaScript buffer when the transformer yields no code or empty code. */
  function EffectiveJs(src: Sources, transform: string -> TransformOutcome): (r: string)
    ensures IsBlank(src.typescript) ==> r == src.javascript
    ensures !IsBlank(src.typescript) && transform(src.typescript) == Threw ==> r == src.typescript
    ensures !IsBlank(src.typescript) && transform(src.typescript).Emitted? && transform(src.typescript).code != "" ==>
              r == transform(src.typescript).code
    ensures !IsBlank(src.typescript) && transform(src.typescript) in {NoCode, Emitted("")} ==> r == src.javascript
  {
    OrElse(CompileTypeScript(src.typescript, transform), src.javascript)
  }

  /** The effective script is always one of three texts: the JavaScript
      buffer, the TypeScript buffer, or non-empty code the transformer
      emitted for the TypeScript buffer. */
  lemma EffectiveJsOrigin(src: Sources, transform: string -> TransformOutcome)
    ensures var r := EffectiveJs(src, transform);
            r == src.javascript || r == src.typescript || (r != "" && transform(src.typescript) == Emitted(r))
  {
  }

  /** The three texts of one preview update. */
  datatype Artifact = Artifact(css: string, html: string, js: string)

  /** The effective artifact of the buffers: the markup buffer as it is, and
      the effective style and script. */
  function Compile(src: Sources, transform: string -> TransformOutcome): Artifact {
    Artifact(EffectiveCss(src), src.html, EffectiveJs(src, transform))
  }

  /** The three files of the downloaded project. */
  datatype Bundle = Bundle(indexHtml: string, styleCss: string, scriptJs: string)

  /** The files `downloadAsZIP` puts in the archive: `index.html` with the
      library tags and the markup, `style.css` with the effective style and
      `script.js` with the effective script. */
  function ExportBundle(src: Sources, libs: seq<string>, transform: string -> TransformOutcome): (b: Bundle)
    ensures b.indexHtml == Libraries.ExportIndexHtml(libs, src.html)
    ensures b.styleCss == EffectiveCss(src) && b.scriptJs == EffectiveJs(src, transform)
  {
    var a := Compile(src, transform);
    Bundle(Libraries.ExportIndexHtml(libs, a.html), a.css, a.js)
  }
}
