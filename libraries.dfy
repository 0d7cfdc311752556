/**
 * The preview's external libraries (client/App.tsx): the ordered list of
 * library URLs with `addLibrary` and `removeLibrary`, the tag each URL
 * becomes by its suffix, and the two documents the tags are spliced into:
 * the preview frame's bootstrap document and the exported `index.html`.
 */
module Libraries {
  import opened JsText

  /** No URL occurs twice in the list. */
  predicate NoDuplicates(libs: seq<string>) {
    forall i, j :: 0 <= i < j < |libs| ==> libs[i] != libs[j]
  }

  /** The list of libraries and the URL picked in the selector. */
  datatype Picker = Picker(libraries: seq<string>, selected: string)

  /** `addLibrary`: a non-empty selection not yet in the list is appended
      and the selection cleared; otherwise nothing changes. */
  function AddLibrary(p: Picker): (r: Picker)
    ensures p.selected != "" && p.selected !in p.libraries ==>
              r.libraries == p.libraries + [p.selected] && r.selected == ""
    ensures p.selected == "" || p.selected in p.libraries ==> r == p
  {
    if p.selected != "" && p.selected !in p.libraries
    then Picker(p.libraries + [p.selected], "")
    else p
  }

  /** `removeLibrary`: `libraries.filter((l) => l !== lib)`. */
  function RemoveLibrary(libs: seq<string>, lib: string): seq<string> {
    if libs == [] then []
    else (if libs[0] == lib then [] else [libs[0]]) + RemoveLibrary(libs[1..], lib)
  }

  /** The list left by a removal holds exactly the other URLs of the list,
      and is no longer than it. */
  lemma {:induction false} RemoveMembers(libs: seq<string>, lib: string)
    ensures forall x :: x in RemoveLibrary(libs, lib) <==> x in libs && x != lib
    ensures |RemoveLibrary(libs, lib)| <= |libs|
  {
    if libs != [] {
      RemoveMembers(libs[1..], lib);
      assert libs == [libs[0]] + libs[1..];
    }
  }

  /** Removing works piece by piece, so the entries kept stay in their
      relative order. */
  lemma {:induction false} RemoveDistributes(a: seq<string>, b: seq<string>, lib: string)
    ensures RemoveLibrary(a + b, lib) == RemoveLibrary(a, lib) + RemoveLibrary(b, lib)
  {
    if a == [] {
      assert a + b == b;
    } else {
      assert (a + b)[1..] == a[1..] + b;
      RemoveDistributes(a[1..], b, lib);
    }
  }

  /** Removing a URL that is not in the list leaves the list as it is. */
  lemma {:induction false} RemoveAbsent(libs: seq<string>, lib: string)
    requires lib !in libs
    ensures RemoveLibrary(libs, lib) == libs
  {
    if libs != [] {
      RemoveAbsent(libs[1..], lib);
    }
  }

  /** In a list without duplicates, the URL at one position occurs neither
      before nor after it. */
  lemma OnlyAt(libs: seq<string>, i: nat)
    requires NoDuplicates(libs) && i < |libs|
    ensures libs[i] !in libs[..i] && libs[i] !in libs[i + 1..]
  {
    var before, after := libs[..i], libs[i + 1..];
    forall j | 0 <= j < |before| ensures before[j] != libs[i] {
      assert before[j] == libs[j];
    }
    forall j | 0 <= j < |after| ensures after[j] != libs[i] {
      assert after[j] == libs[i + 1 + j];
    }
  }

  /** Removing a URL that occurs once, between two stretches without it,
      joins the two stretches. */
  lemma RemoveBetween(before: seq<string>, lib: string, after: seq<string>)
    requires lib !in before && lib !in after
    ensures RemoveLibrary(before + [lib] + after, lib) == before + after
  {
    var left := before + [lib];
    RemoveDistributes(before, [lib], lib);
    RemoveAbsent(before, lib);
    RemoveOnly(lib);
    assert RemoveLibrary(left, lib) == before;
    RemoveDistributes(left, after, lib);
    RemoveAbsent(after, lib);
  }

  lemma RemoveOnly(lib: string)
    ensures RemoveLibrary([lib], lib) == []
  {
    assert [lib][1..] == [];
  }

  /** In a list without duplicates, removing a URL takes out exactly its one
      entry. */
  lemma RemoveAt(libs: seq<string>, i: nat)
    requires NoDuplicates(libs) && i < |libs|
    ensures RemoveLibrary(libs, libs[i]) == libs[..i] + libs[i + 1..]
  {
    OnlyAt(libs, i);
    assert libs == libs[..i] + [libs[i]] + libs[i + 1..];
    RemoveBetween(libs[..i], libs[i], libs[i + 1..]);
  }

  /** Adding keeps the list free of duplicates. */
  lemma AddKeepsNoDuplicates(p: Picker)
    requires NoDuplicates(p.libraries)
    ensures NoDuplicates(AddLibrary(p).libraries)
  {
  }

  /** Removing keeps the list free of duplicates. */
  lemma {:induction false} RemoveKeepsNoDuplicates(libs: seq<string>, lib: string)
    requires NoDuplicates(libs)
    ensures NoDuplicates(RemoveLibrary(libs, lib))
  {
    if libs != [] {
      RemoveKeepsNoDuplicates(libs[1..], lib);
      RemoveMembers(libs[1..], lib);
      var rest := RemoveLibrary(libs[1..], lib);
      assert libs[0] !in rest;
    }
  }

  /** Removing a library just added gives back the list before the addition. */
  lemma AddThenRemove(p: Picker)
    requires NoDuplicates(p.libraries) && p.selected != "" && p.selected !in p.libraries
    ensures RemoveLibrary(AddLibrary(p).libraries, p.selected) == p.libraries
  {
    RemoveDistributes(p.libraries, [p.selected], p.selected);
    RemoveAbsent(p.libraries, p.selected);
  }

  /** The tag a library URL becomes: a stylesheet link for a `.css` suffix, a
      script element for a `.js` suffix, nothing otherwise. */
  function LibraryTag(url: string): (r: string)
    ensures r == "" <==> !EndsWith(url, ".css") && !EndsWith(url, ".js")
  {
    if EndsWith(url, ".css") then "<link rel=\"stylesheet\" href=\"" + url + "\">"
    else if EndsWith(url, ".js") then "<script src=\"" + url + "\"></script>"
    else ""
  }

  /** `libraries.map(...)`: one tag per library, in list order. */
  function Tags(libs: seq<string>): (r: seq<string>)
    ensures |r| == |libs|
    ensures forall i :: 0 <= i < |libs| ==> r[i] == LibraryTag(libs[i])
  {
    if libs == [] then [] else [LibraryTag(libs[0])] + Tags(libs[1..])
  }

  /** The tags joined by `sep`: `"\n"` in the preview, `"\n  "` in the export. */
  function TagBlock(libs: seq<string>, sep: string): string {
    Join(Tags(libs), sep)
  }

  /** A library added at the end of the list adds its tag at the end of the
      block, after one separator when the list was not empty. */
  lemma TagBlockAppend(libs: seq<string>, url: string, sep: string)
    ensures TagBlock(libs + [url], sep)
            == if libs == [] then LibraryTag(url) else TagBlock(libs, sep) + sep + LibraryTag(url)
  {
    var tags := Tags(libs + [url]);
    assert tags == Tags(libs) + [LibraryTag(url)];
    if libs != [] {
      JoinAppend(Tags(libs), [LibraryTag(url)], sep);
    }
  }

  /** A URL with neither suffix, added to a non-empty list, contributes an
      empty entry to the block, but its separator stays. */
  lemma IgnoredUrlKeepsSeparator(libs: seq<string>, url: string, sep: string)
    requires libs != [] && !EndsWith(url, ".css") && !EndsWith(url, ".js")
    ensures TagBlock(libs + [url], sep) == TagBlock(libs, sep) + sep
  {
    TagBlockAppend(libs, url, sep);
    assert LibraryTag(url) == "";
  }

  const PreviewHead: string := @"<!DOCTYPE html>
<html lang=""en"">
<head>
  <meta charset=""UTF-8"">
  <meta name=""viewport"" content=""width=device-width, initial-scale=1.0"">
  <title>Preview</title>
  "

  const PreviewTail: string := @"
  <style>
    * { margin: 0; padding: 0; }
    html, body { width: 100%; height: 100%; }
    body { background-color: transparent; overflow: auto; }
  </style>
  <style id=""user-styles""></style>
</head>
<body>
  <div id=""root""></div>
  <script id=""user-script""></script>
  <script>
    window.updatePreview = function(data) {
      const styleEl = document.getElementById('user-styles');
      const scriptEl = document.getElementById('user-script');
      const rootEl = document.getElementById('root');

      if (data.css !== undefined) styleEl.textContent = data.css;
      if (data.html !== undefined) rootEl.innerHTML = data.html;
      if (data.js !== undefined) {
        scriptEl.textContent = data.js;
        try { eval(data.js); } catch(e) { console.error(e); }
      }
    };

    window.addEventListener('message', function(e) {
      if (e.data.type === 'update') {
        window.updatePreview(e.data);
      }
    }, false);
  </script>
</body>
</html>"

  const ExportHead: string := @"<!DOCTYPE html>
<html lang=""en"">
<head>
  <meta charset=""UTF-8"">
  <meta name=""viewport"" content=""width=device-width, initial-scale=1.0"">
  <title>My Project</title>
  <link rel=""stylesheet"" href=""style.css"">
  "

  const ExportMiddle: string := @"
</head>
<body>
"

  const ExportTail: string := @"
  <script src=""script.js""></script>
</body>
</html>"

  /** The document the preview frame is created from: the library tags in
      the head, then the style, markup root and script slots and the script
      that installs the update listener. */
  function BootstrapDocument(libs: seq<string>): string {
    PreviewHead + TagBlock(libs, "\n") + PreviewTail
  }

  /** The exported `index.html`: a link to `style.css`, the library tags, the
      markup, and a script element loading `script.js`. */
  function ExportIndexHtml(libs: seq<string>, html: string): string {
    ExportHead + TagBlock(libs, "\n  ") + ExportMiddle + html + ExportTail
  }
}
