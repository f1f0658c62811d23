/**
  Choosing a font for the banners: an ordered list of candidates, the first
  one that loads wins, and a built-in bitmap font closes the chain so that
  the choice never fails.

  The file system and the TrueType loader are not modelled; the host says
  which paths are files and which names the loader can open (and the path
  the opened font then reports).
 */
module FontChain {

  datatype Option<T> = None | Some(value: T)

  /** The host's fonts: the paths that are files, and for every name the
      TrueType loader can open, the path of the font it opens. */
  datatype Host = Host(files: set<string>, fonts: map<string, string>)

  /** A loaded font: a TrueType face at a size, or the built-in bitmap font. */
  datatype Font = TrueType(path: string, size: int) | BuiltinBitmap

  /** The system font names, in the order they are tried. */
  const SystemFontNames: seq<string> :=
    ["DejaVuSerif-Bold.ttf", "DejaVuSerif.ttf", "Arial.ttf", "FreeSerifBold.ttf", "Times New Roman.ttf"]

  /** names[i] loads and no name before it does. */
  predicate FirstLoadableAt(host: Host, names: seq<string>, i: int) {
    && 0 <= i < |names|
    && names[i] in host.fonts
    && forall j :: 0 <= j < i ==> names[j] !in host.fonts
  }

  /** No name in the list loads. */
  predicate NoneLoadable(host: Host, names: seq<string>) {
    forall j :: 0 <= j < |names| ==> names[j] !in host.fonts
  }

  /** The user's font path is tried only when one is given (a non-empty
      path) and it names a file; it is used when it then loads. */
  predicate UserFontUsable(host: Host, userPath: Option<string>) {
    && userPath.Some?
    && userPath.value != ""
    && userPath.value in host.files
    && userPath.value in host.fonts
  }

  /** path is what a search of names reports: the path of the first name
      that loads, or None exactly when no name loads. */
  ghost predicate FirstLoadablePath(host: Host, names: seq<string>, path: Option<string>) {
    && (path.None? <==> NoneLoadable(host, names))
    && (path.Some? ==>
          exists i :: FirstLoadableAt(host, names, i) && path.value == host.fonts[names[i]])
  }

  /** The font the fallback chain settles on for a size and an optional user
      path: the user's font if usable, else the first system font that
      loads, else the built-in bitmap font. */
  ghost predicate ChosenFont(host: Host, size: int, userPath: Option<string>, font: Font) {
    if UserFontUsable(host, userPath) then
      font == TrueType(host.fonts[userPath.value], size)
    else if NoneLoadable(host, SystemFontNames) then
      font == BuiltinBitmap
    else
      exists i :: FirstLoadableAt(host, SystemFontNames, i)
                  && font == TrueType(host.fonts[SystemFontNames[i]], size)
  }

  /** Returns the path of the first name in `preferred` that loads, or None
      when none of them does. `preferred` defaults to the system font names. */
  method FindFont(host: Host, preferred: seq<string> := SystemFontNames) returns (path: Option<string>)
    ensures FirstLoadablePath(host, preferred, path)
  {
    for k := 0 to |preferred|
      invariant forall j :: 0 <= j < k ==> preferred[j] !in host.fonts
    {
      if preferred[k] in host.fonts {
        assert FirstLoadableAt(host, preferred, k);
        return Some(host.fonts[preferred[k]]);
      }
    }
    return None;
  }

  /** Loads the font for a banner: the user's path first, then the system
      names in order, then the built-in bitmap font. It never fails. */
  method LoadFont(host: Host, size: int, userPath: Option<string>) returns (font: Font)
    ensures ChosenFont(host, size, userPath, font)
  {
    if userPath.Some? && userPath.value != "" && userPath.value in host.files {
      if userPath.value in host.fonts {
        return TrueType(host.fonts[userPath.value], size);
      }
    }
    var names := SystemFontNames;
    for k := 0 to |names|
      invariant forall j :: 0 <= j < k ==> names[j] !in host.fonts
    {
      if names[k] in host.fonts {
        assert FirstLoadableAt(host, names, k);
        return TrueType(host.fonts[names[k]], size);
      }
    }
    return BuiltinBitmap;
  }

  /** There is only one first loadable name, so the chain's choice is
      determined by the host. */
  lemma FirstLoadableUnique(host: Host, names: seq<string>, i: int, k: int)
    requires FirstLoadableAt(host, names, i) && FirstLoadableAt(host, names, k)
    ensures i == k
  {
  }

  /** When the user's font is not usable, the banner font is the system font
      whose path FindFont reports for the same list: both stop at the same
      name. */
  lemma LoadFontAgreesWithFindFont(host: Host, size: int, userPath: Option<string>, font: Font, path: Option<string>)
    requires ChosenFont(host, size, userPath, font) && !UserFontUsable(host, userPath)
    requires FirstLoadablePath(host, SystemFontNames, path)
    ensures font == (if path.Some? then TrueType(path.value, size) else BuiltinBitmap)
  {
  }
}
