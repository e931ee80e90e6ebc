/**
 * The glExtension class: the list of extension names a GL context reports, collected
 * from the space-separated string glGetString(GL_EXTENSIONS) returns, kept in
 * alphabetical order, and searched without regard to ASCII case.
 *
 * The string glGetString would return is passed in as an `Option<string>`; `None` is
 * the null pointer.
 */
module GlExtensionList {
  import opened ExtensionText

  class GlExtension {
    var extensions: seq<string>

    /** The list is always in alphabetical order. */
    ghost predicate Valid()
      reads this
    {
      Sorted(extensions)
    }

    /** Collects the extensions of the current context (`gl`) into an empty list. */
    constructor (gl: Option<string>)
      ensures Valid()
      ensures gl.None? ==> extensions == []
      ensures gl.Some? ==> extensions == SortStrings(Tokens(gl.value))
    {
      extensions := [];
      new;
      GetExtensionStrings(gl);
      assert gl.Some? ==> [] + Tokens(gl.value) == Tokens(gl.value);
    }

    /**
     * Appends one token per space of `gl` (the characters after the last space are
     * dropped) and sorts the whole list; a null string changes nothing.
     */
    method GetExtensionStrings(gl: Option<string>)
      modifies this
      ensures gl.None? ==> extensions == old(extensions)
      ensures gl.Some? ==> extensions == SortStrings(old(extensions) + Tokens(gl.value))
      ensures gl.Some? ==> Sorted(extensions) && multiset(extensions) == multiset(old(extensions) + Tokens(gl.value))
      ensures old(Valid()) ==> Valid()
    {
      if gl.None? {
        return;
      }
      var str := gl.value;
      var token: string := [];
      var cursor := 0;
      while cursor < |str|
        invariant 0 <= cursor <= |str|
        invariant extensions == old(extensions) + Tokens(str[..cursor])
        invariant token == Pending(str[..cursor])
      {
        ScanStep(str[..cursor], str[cursor]);
        assert str[..cursor + 1] == str[..cursor] + [str[cursor]];
        if str[cursor] != ' ' {
          token := token + [str[cursor]];
        } else {
          extensions := extensions + [token];
          token := [];
        }
        cursor := cursor + 1;
      }
      assert str[..cursor] == str;
      extensions := SortStrings(extensions);
    }

    /** True exactly when some stored name equals `ext` once both are lower-cased. */
    method IsSupported(ext: string) returns (found: bool)
      ensures found <==> exists i :: 0 <= i < |extensions| && Lower(ext) == Lower(extensions[i])
    {
      var k := 0;
      while k < |extensions|
        invariant 0 <= k <= |extensions|
        invariant forall i :: 0 <= i < k ==> Lower(ext) != Lower(extensions[i])
      {
        var a := ToLower(ext);
        var b := ToLower(extensions[k]);
        if a == b {
          return true;
        }
        k := k + 1;
      }
      return false;
    }

    /** The stored list, collected afresh from `gl` only when it is empty. */
    method GetExtensions(gl: Option<string>) returns (r: seq<string>)
      modifies this
      ensures old(extensions) != [] ==> extensions == old(extensions)
      ensures old(extensions) == [] && gl.None? ==> extensions == []
      ensures old(extensions) == [] && gl.Some? ==> extensions == SortStrings(Tokens(gl.value))
      ensures r == extensions
      ensures old(Valid()) ==> Valid()
    {
      if |extensions| == 0 {
        GetExtensionStrings(gl);
        assert gl.Some? ==> old(extensions) + Tokens(gl.value) == Tokens(gl.value);
      }
      r := extensions;
    }

    /** A copy of `str` with every character passed through tolower. */
    method ToLower(str: string) returns (newStr: string)
      ensures newStr == Lower(str)
    {
      newStr := str;
      var i := 0;
      while i < |newStr|
        invariant 0 <= i <= |newStr| == |str|
        invariant forall k :: 0 <= k < i ==> newStr[k] == LowerChar(str[k])
        invariant forall k :: i <= k < |str| ==> newStr[k] == str[k]
      {
        newStr := newStr[i := LowerChar(newStr[i])];
        i := i + 1;
      }
    }
  }
}
