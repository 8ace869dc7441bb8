/** Viewport classes of the device test helpers, and the names they give
    screenshot files. */
module Viewport {
  import opened Outcomes
  import opened Decimal
  import opened Sequences

  datatype ViewportSize = ViewportSize(width: int, height: int)

  const TabletMinWidth := 768
  const DesktopMinWidth := 1024

  predicate IsMobile(v: ViewportSize) {
    v.width < TabletMinWidth
  }

  predicate IsTablet(v: ViewportSize) {
    v.width >= TabletMinWidth && v.width < DesktopMinWidth
  }

  predicate IsDesktop(v: ViewportSize) {
    v.width >= DesktopMinWidth
  }

  /** Each width is in exactly one class, and the height never matters. */
  lemma ExactlyOneClass(v: ViewportSize, h: int)
    ensures IsMobile(v) || IsTablet(v) || IsDesktop(v)
    ensures !(IsMobile(v) && IsTablet(v)) && !(IsMobile(v) && IsDesktop(v)) && !(IsTablet(v) && IsDesktop(v))
    ensures IsMobile(v) == IsMobile(ViewportSize(v.width, h))
    ensures IsTablet(v) == IsTablet(ViewportSize(v.width, h))
    ensures IsDesktop(v) == IsDesktop(ViewportSize(v.width, h))
  {
  }

  /** The `deviceType` chosen for a screenshot, desktop by default. */
  function DeviceType(v: ViewportSize): (t: string)
    ensures t == "mobile" <==> IsMobile(v)
    ensures t == "tablet" <==> IsTablet(v)
    ensures t == "desktop" <==> IsDesktop(v)
  {
    if IsMobile(v) then "mobile" else if IsTablet(v) then "tablet" else "desktop"
  }

  /** The file name `takeDeviceScreenshot` writes, or `None` when the page
      has no viewport and no screenshot is taken. */
  function DeviceScreenshotName(viewport: Option<ViewportSize>, name: string): (r: Option<string>)
    ensures r.None? <==> viewport.None?
    ensures viewport.Some? ==>
              var v, file := viewport.value, r.value;
              var front, back := DeviceType(v) + "-", "-" + name + ".png";
              |front| + |back| <= |file| &&
              file[..|front|] == front &&
              file[|file| - |back|..] == back &&
              file[|front|..|file| - |back|] == IntToString(v.width) + "x" + IntToString(v.height)
  {
    match viewport
    case None => None
    case Some(v) =>
      var front, middle, back :=
        DeviceType(v) + "-", IntToString(v.width) + "x" + IntToString(v.height), "-" + name + ".png";
      ThreeParts(front, middle, back);
      Some(front + middle + back)
  }

  /** A character the pattern `\s` matches. */
  predicate IsSpace(c: char) {
    c == ' ' || c == '\t' || c == '\n' || c == '\r' || c == '\U{000B}' || c == '\U{000C}' ||
    c == '\U{00A0}' || c == '\U{1680}' || ('\U{2000}' <= c <= '\U{200A}') ||
    c == '\U{2028}' || c == '\U{2029}' || c == '\U{202F}' || c == '\U{205F}' ||
    c == '\U{3000}' || c == '\U{FEFF}'
  }

  /** One character of `toLowerCase`, ASCII letters only. */
  function LowerChar(c: char): (d: char)
    ensures d == if 'A' <= c <= 'Z' then (c as int + 32) as char else c
    ensures IsSpace(d) <==> IsSpace(c)
    ensures d == '-' <==> c == '-'
    ensures !('A' <= d <= 'Z')
  {
    if 'A' <= c <= 'Z' then (c as int + 32) as char else c
  }

  /** `toLowerCase` on the ASCII letters; other characters are kept. */
  function Lower(s: string): (r: string)
    ensures |r| == |s|
    ensures forall i :: 0 <= i < |s| ==>
              r[i] == if 'A' <= s[i] <= 'Z' then (s[i] as int + 32) as char else s[i]
    ensures forall i :: 0 <= i < |s| ==> (IsSpace(r[i]) <==> IsSpace(s[i]))
    ensures forall i :: 0 <= i < |s| ==> (r[i] == '-' <==> s[i] == '-')
    ensures forall i :: 0 <= i < |s| ==> !('A' <= r[i] <= 'Z')
  {
    if s == [] then [] else [LowerChar(s[0])] + Lower(s[1..])
  }

  /** The leading whitespace of a string, dropped. */
  function DropSpaces(s: string): (r: string)
    ensures |r| <= |s| && (r != [] ==> !IsSpace(r[0]))
    ensures r == s[|s| - |r|..]
    ensures forall i :: 0 <= i < |s| - |r| ==> IsSpace(s[i])
    ensures forall c :: c in r ==> c in s
  {
    if s != [] && IsSpace(s[0]) then DropSpaces(s[1..]) else s
  }

  /** `replace(/\s+/g, "-")`: every run of whitespace becomes one "-". */
  function DashSpaces(s: string): (r: string)
    ensures |r| <= |s|
    ensures forall c :: c in r ==> !IsSpace(c)
    ensures forall c :: c in r ==> c == '-' || c in s
    decreases |s|
  {
    if s == [] then []
    else if IsSpace(s[0]) then "-" + DashSpaces(DropSpaces(s[1..]))
    else [s[0]] + DashSpaces(s[1..])
  }

  /** Removes "-" and whitespace: what the replacement leaves untouched. */
  function Letters(s: string): string {
    if s == [] then []
    else (if s[0] == '-' || IsSpace(s[0]) then [] else [s[0]]) + Letters(s[1..])
  }

  lemma {:induction false} LettersDropSpaces(s: string)
    ensures Letters(DropSpaces(s)) == Letters(s)
  {
    if s != [] && IsSpace(s[0]) {
      LettersDropSpaces(s[1..]);
    }
  }

  /** The replacement keeps every other character, in order. */
  lemma {:induction false} DashSpacesKeepsLetters(s: string)
    ensures Letters(DashSpaces(s)) == Letters(s)
    decreases |s|
  {
    if s != [] {
      if IsSpace(s[0]) {
        var rest := DropSpaces(s[1..]);
        DashSpacesKeepsLetters(rest);
        LettersDropSpaces(s[1..]);
        assert ("-" + DashSpaces(rest))[1..] == DashSpaces(rest);
      } else {
        assert ([s[0]] + DashSpaces(s[1..]))[1..] == DashSpaces(s[1..]);
        DashSpacesKeepsLetters(s[1..]);
      }
    }
  }

  /** A string without whitespace is left as it is. */
  lemma {:induction false} DashSpacesNoSpace(s: string)
    requires forall c :: c in s ==> !IsSpace(c)
    ensures DashSpaces(s) == s
  {
    if s != [] {
      DashSpacesNoSpace(s[1..]);
    }
  }

  /** The device part of `takeDeviceScreenshots`' file name. */
  function DeviceSlug(deviceName: string): string {
    DashSpaces(Lower(deviceName))
  }

  /** The file name `takeDeviceScreenshots` writes and returns. */
  function DeviceScreenshotsName(testName: string, deviceName: string): string {
    testName + "-" + DeviceSlug(deviceName) + ".png"
  }

  /** Lower-casing a string with a first character. */
  lemma LowerCons(x: char, rest: string)
    ensures Lower([x] + rest) == [LowerChar(x)] + Lower(rest)
  {
    assert ([x] + rest)[0] == x && ([x] + rest)[1..] == rest;
  }

  /** `toLowerCase` works character by character. */
  lemma {:induction false} LowerConcat(a: string, b: string)
    ensures Lower(a + b) == Lower(a) + Lower(b)
    decreases |a|
  {
    if a == [] {
      assert a + b == b;
    } else {
      var x, tail := a[0], a[1..];
      assert a == [x] + tail;
      assert a + b == [x] + (tail + b);
      var head := [LowerChar(x)];
      LowerCons(x, tail + b);
      LowerCons(x, tail);
      LowerConcat(tail, b);
      AppendAssociative(head, Lower(tail), Lower(b));
    }
  }

  /** One step of the replacement: a whitespace character starts a run that
      becomes one "-"; any other character is kept. */
  lemma DashSpacesCons(x: char, rest: string)
    ensures DashSpaces([x] + rest) ==
              if IsSpace(x) then "-" + DashSpaces(DropSpaces(rest)) else [x] + DashSpaces(rest)
  {
    assert ([x] + rest)[0] == x && ([x] + rest)[1..] == rest;
  }

  /** A whitespace run followed by a non-whitespace start is dropped whole. */
  lemma {:induction false} DropSpacesRun(w: string, b: string)
    requires forall c :: c in w ==> IsSpace(c)
    requires b == [] || !IsSpace(b[0])
    ensures DropSpaces(w + b) == b
  {
    if w != [] {
      assert (w + b)[0] == w[0] && (w + b)[1..] == w[1..] + b;
      DropSpacesRun(w[1..], b);
    } else {
      assert w + b == b;
    }
  }

  /** The replacement in place: text without whitespace is kept, the first
      whitespace run after it becomes exactly one "-", and the rest is
      replaced the same way. */
  lemma {:induction false} DashSpacesRun(a: string, w: string, b: string)
    requires forall c :: c in a ==> !IsSpace(c)
    requires w != [] && forall c :: c in w ==> IsSpace(c)
    requires b == [] || !IsSpace(b[0])
    ensures DashSpaces(a + w + b) == a + "-" + DashSpaces(b)
    decreases |a|
  {
    var d := DashSpaces(b);
    if a == [] {
      var x := w[0];
      assert a + w + b == [x] + (w[1..] + b);
      assert IsSpace(x) by { assert x in w; }
      DashSpacesCons(x, w[1..] + b);
      DropSpacesRun(w[1..], b);
      assert DashSpaces(a + w + b) == "-" + d;
      assert a + "-" == "-";
    } else {
      var x, tail := a[0], a[1..];
      assert a + w + b == [x] + (tail + w + b) by {
        assert a == [x] + tail;
      }
      assert !IsSpace(x) by { assert x in a; }
      DashSpacesCons(x, tail + w + b);
      DashSpacesRun(tail, w, b);
      assert DashSpaces(a + w + b) == [x] + ((tail + "-") + d);
      AppendAssociative([x], tail + "-", d);
      assert [x] + (tail + "-") == a + "-" by {
        assert a == [x] + tail;
      }
    }
  }

  /** The device part of the file name: the lower-cased text before the
      first whitespace run, one "-" for the run, then the rest the same way. */
  lemma DeviceSlugRun(a: string, w: string, b: string)
    requires forall c :: c in a ==> !IsSpace(c)
    requires w != [] && forall c :: c in w ==> IsSpace(c)
    requires b == [] || !IsSpace(b[0])
    ensures DeviceSlug(a + w + b) == Lower(a) + "-" + DeviceSlug(b)
  {
    LowerConcat(a + w, b);
    LowerConcat(a, w);
    var la, lw, lb := Lower(a), Lower(w), Lower(b);
    assert forall c :: c in la ==> !IsSpace(c) by {
      forall c | c in la ensures !IsSpace(c) {
        var i :| 0 <= i < |la| && la[i] == c;
        assert a[i] in a;
      }
    }
    assert forall c :: c in lw ==> IsSpace(c) by {
      forall c | c in lw ensures IsSpace(c) {
        var i :| 0 <= i < |lw| && lw[i] == c;
        assert w[i] in w;
      }
    }
    assert lb == [] || !IsSpace(lb[0]);
    DashSpacesRun(la, lw, lb);
  }

  /** The device part has no whitespace and no upper-case ASCII letter, and
      keeps the name's other characters, lower-cased, in order. */
  lemma DeviceSlugFacts(deviceName: string)
    ensures forall c :: c in DeviceSlug(deviceName) ==> !IsSpace(c) && !('A' <= c <= 'Z')
    ensures Letters(DeviceSlug(deviceName)) == Letters(Lower(deviceName))
    ensures |DeviceSlug(deviceName)| <= |deviceName|
  {
    DashSpacesKeepsLetters(Lower(deviceName));
  }

}
