/**
 * `normalizePath` of src/RadixRouter.php: two PCRE replacements applied one
 * after the other, `#/+#` -> `/` and then `#/+$#` -> ``, and the empty result
 * mapped to `/`.
 *
 * The second pattern ends in `$` without the D modifier, so PCRE lets it
 * match either at the very end of the subject or just before a final
 * newline. NormalizePathAsWritten keeps that reading; it makes normalisation
 * fail to be idempotent (NormalizeAsWrittenNotIdempotent). NormalizePath,
 * which the rest of the model uses, reads `$` as the end of the subject and
 * is idempotent; the two agree on every path without a newline.
 */
module PathNormalizer {

  /** No two consecutive slashes. */
  predicate NoDoubleSlash(s: string) {
    forall i :: 0 <= i < |s| - 1 ==> !(s[i] == '/' && s[i + 1] == '/')
  }

  /** The fixed points of NormalizePath (see NormalizeFixpoint). */
  predicate IsNormal(s: string) {
    && s != []
    && NoDoubleSlash(s)
    && (s[|s| - 1] == '/' ==> s == "/")
  }

  /** The characters of `s` other than slashes, in order. */
  function WithoutSlashes(s: string): string {
    if s == [] then []
    else (if s[0] == '/' then [] else [s[0]]) + WithoutSlashes(s[1..])
  }

  /** `preg_replace('#/+#', '/', s)`: every run of slashes becomes one slash. */
  function CollapseSlashes(s: string): (r: string)
    ensures NoDoubleSlash(r)
    ensures |r| <= |s|
    ensures s != [] ==> r != [] && r[0] == s[0] && r[|r| - 1] == s[|s| - 1]
    ensures s == [] ==> r == []
  {
    if |s| <= 1 then s
    else if s[0] == '/' && s[1] == '/' then CollapseSlashes(s[1..])
    else [s[0]] + CollapseSlashes(s[1..])
  }

  /** Removes every slash at the end of `s`. */
  function TrimSlashes(s: string): (r: string)
    ensures r <= s
    ensures r != [] ==> r[|r| - 1] != '/'
    ensures forall i :: |r| <= i < |s| ==> s[i] == '/'
  {
    if s != [] && s[|s| - 1] == '/' then TrimSlashes(s[..|s| - 1]) else s
  }

  /** `preg_replace('#/+$#D', '', s)`: the slash run at the very end of the
      subject is removed (`$` read as the end of the subject only). */
  function StripTrailingSlashes(s: string): (r: string)
    ensures r <= s
    ensures r == [] || r[|r| - 1] != '/'
    ensures forall i :: |r| <= i < |s| ==> s[i] == '/'
  {
    TrimSlashes(s)
  }

  /** `normalizePath`, with `$` read as the end of the subject (see
      NormalizePathAsWritten for PCRE's own reading). */
  function NormalizePath(path: string): (r: string)
    ensures r != []
    ensures NoDoubleSlash(r)
    ensures r[|r| - 1] == '/' <==> r == "/"
  {
    var c := CollapseSlashes(path);
    var t := StripTrailingSlashes(c);
    PrefixKeepsNoDoubleSlash(c, t);
    if t == [] then "/" else t
  }

  /** `preg_replace('#/+$#', '', s)` as PCRE runs it: without the D modifier
      `$` also matches in front of a final newline, so the slash run there is
      removed too. */
  function PcreStripTrailingSlashes(s: string): string {
    if s != [] && s[|s| - 1] == '\n' then TrimSlashes(s[..|s| - 1]) + "\n"
    else TrimSlashes(s)
  }

  /** `normalizePath` exactly as written, PCRE's `$` included. */
  function NormalizePathAsWritten(path: string): (r: string)
    ensures r != []
  {
    var t := PcreStripTrailingSlashes(CollapseSlashes(path));
    if t == [] then "/" else t
  }

  /** Collapsing works piecewise when no slash run straddles the cut. */
  lemma {:induction false} CollapseAppend(a: string, b: string)
    requires a != [] && b != []
    requires !(a[|a| - 1] == '/' && b[0] == '/')
    ensures CollapseSlashes(a + b) == CollapseSlashes(a) + CollapseSlashes(b)
  {
    var ab := a + b;
    if |a| == 1 {
      assert ab[0] == a[0] && ab[1..] == b;
    } else {
      assert ab[0] == a[0] && ab[1] == a[1] && ab[1..] == a[1..] + b;
      CollapseAppend(a[1..], b);
    }
  }

  lemma PrefixKeepsNoDoubleSlash(s: string, p: string)
    requires NoDoubleSlash(s) && p <= s
    ensures NoDoubleSlash(p)
  {
    assert forall i :: 0 <= i < |p| ==> p[i] == s[i];
  }

  /** A string without doubled slashes is left alone by the first pattern. */
  lemma {:induction false} CollapseKeepsNoDoubleSlash(s: string)
    requires NoDoubleSlash(s)
    ensures CollapseSlashes(s) == s
  {
    if |s| > 1 {
      assert NoDoubleSlash(s[1..]) by {
        forall i | 0 <= i < |s[1..]| - 1
          ensures !(s[1..][i] == '/' && s[1..][i + 1] == '/')
        {
          assert s[1..][i] == s[i + 1] && s[1..][i + 1] == s[i + 2];
        }
      }
      CollapseKeepsNoDoubleSlash(s[1..]);
    }
  }

  /** Normal strings are exactly the strings NormalizePath leaves unchanged. */
  lemma NormalizeFixpoint(s: string)
    ensures NormalizePath(s) == s <==> IsNormal(s)
  {
    if IsNormal(s) {
      CollapseKeepsNoDoubleSlash(s);
    }
  }

  /** normalizePath is idempotent. */
  lemma NormalizeIdempotent(s: string)
    ensures NormalizePath(NormalizePath(s)) == NormalizePath(s)
  {
    NormalizeFixpoint(NormalizePath(s));
  }

  lemma {:induction false} WithoutSlashesAppend(a: string, b: string)
    ensures WithoutSlashes(a + b) == WithoutSlashes(a) + WithoutSlashes(b)
  {
    if a != [] {
      var ab := a + b;
      assert ab[0] == a[0] && ab[1..] == a[1..] + b;
      calc {
        WithoutSlashes(ab);
        (if a[0] == '/' then [] else [a[0]]) + WithoutSlashes(a[1..] + b);
        { WithoutSlashesAppend(a[1..], b); }
        (if a[0] == '/' then [] else [a[0]]) + (WithoutSlashes(a[1..]) + WithoutSlashes(b));
      }
    } else {
      assert a + b == b;
    }
  }

  lemma {:induction false} CollapseKeepsNonSlashes(s: string)
    ensures WithoutSlashes(CollapseSlashes(s)) == WithoutSlashes(s)
  {
    if |s| > 1 {
      CollapseKeepsNonSlashes(s[1..]);
      if !(s[0] == '/' && s[1] == '/') {
        WithoutSlashesAppend([s[0]], CollapseSlashes(s[1..]));
      }
    }
  }

  lemma {:induction false} TrimKeepsNonSlashes(s: string)
    ensures WithoutSlashes(TrimSlashes(s)) == WithoutSlashes(s)
  {
    if s != [] && s[|s| - 1] == '/' {
      var init := s[..|s| - 1];
      assert s == init + "/";
      WithoutSlashesAppend(init, "/");
      TrimKeepsNonSlashes(init);
    }
  }

  /** Normalisation only ever removes or adds slashes: every other character
      of the path survives, in order. */
  lemma NormalizeKeepsNonSlashes(s: string)
    ensures WithoutSlashes(NormalizePath(s)) == WithoutSlashes(s)
  {
    CollapseKeepsNonSlashes(s);
    TrimKeepsNonSlashes(CollapseSlashes(s));
  }

  /** The cases of the path-normalisation test table. */
  lemma NormalizeExamplesShort()
    ensures NormalizePath("") == "/"
    ensures NormalizePath("/") == "/"
  {
  }

  /** Removing one slash of a doubled pair changes nothing. */
  lemma {:induction false} CollapseIgnoresDoubledSlash(x: string, y: string)
    ensures CollapseSlashes(x + "//" + y) == CollapseSlashes(x + "/" + y)
  {
    var long, short := x + "//" + y, x + "/" + y;
    if x == [] {
      assert long[0] == '/' && long[1] == '/' && long[1..] == short;
    } else {
      assert long[0] == short[0] == x[0] && long[1] == short[1];
      assert long[1..] == x[1..] + "//" + y && short[1..] == x[1..] + "/" + y;
      CollapseIgnoresDoubledSlash(x[1..], y);
    }
  }

  /** Doubling a slash anywhere in a path does not change its normal form. */
  lemma NormalizeIgnoresDoubledSlash(x: string, y: string)
    ensures NormalizePath(x + "//" + y) == NormalizePath(x + "/" + y)
  {
    CollapseIgnoresDoubledSlash(x, y);
  }

  /** A trailing slash does not change the normal form. */
  lemma NormalizeIgnoresTrailingSlash(p: string)
    ensures NormalizePath(p + "/") == NormalizePath(p)
  {
    if p == [] {
      assert p + "/" == "/";
    } else if p[|p| - 1] == '/' {
      var x := p[..|p| - 1];
      assert p + "/" == x + "//" + [] && p == x + "/" + [];
      CollapseIgnoresDoubledSlash(x, []);
    } else {
      CollapseAppend(p, "/");
      var c := CollapseSlashes(p);
      assert (c + "/")[..|c + "/"| - 1] == c;
    }
  }

  lemma NormalizeExampleNormal()
    ensures NormalizePath("/user/posts") == "/user/posts"
  {
    var segs := ["user", "posts"];
    assert segs[1..] == ["posts"] && segs[1..][1..] == [];
    assert SlashPath(segs) == "/user/posts";
    SlashPathIsNormal(segs);
    NormalizeFixpoint("/user/posts");
  }

  lemma NormalizeExampleDoubled()
    ensures NormalizePath("/user//posts") == "/user/posts"
  {
    NormalizeIgnoresDoubledSlash("/user", "posts");
    assert "/user" + "//" + "posts" == "/user//posts";
    assert "/user" + "/" + "posts" == "/user/posts";
    NormalizeExampleNormal();
  }

  lemma NormalizeExampleTripled()
    ensures NormalizePath("/user///posts") == "/user/posts"
  {
    NormalizeIgnoresDoubledSlash("/user/", "posts");
    assert "/user/" + "//" + "posts" == "/user///posts";
    assert "/user/" + "/" + "posts" == "/user//posts";
    NormalizeExampleDoubled();
  }

  lemma NormalizeExampleTrailing()
    ensures NormalizePath("/user/posts/") == "/user/posts"
  {
    NormalizeExampleNormal();
    NormalizeIgnoresTrailingSlash("/user/posts");
    assert "/user/posts" + "/" == "/user/posts/";
  }

  lemma NormalizeExampleTrailingRun()
    ensures NormalizePath("/user/posts///") == "/user/posts"
  {
    NormalSegment("user");
    NormalExtend("/user", "posts");
    ThreeTrailing("/user/posts");
    assert "/user/posts" + "///" == "/user/posts///";
  }

  lemma ThreeTrailing(p: string)
    requires IsNormal(p)
    ensures NormalizePath(p + "///") == p
  {
    NormalizeIgnoresTrailingSlash(p + "//");
    assert p + "//" + "/" == p + "///";
    NormalizeIgnoresTrailingSlash(p + "/");
    assert p + "/" + "/" == p + "//";
    NormalTrailing(p);
  }

  /** The two readings of `$` differ only on a path that ends in a newline. */
  lemma NormalizeAsWrittenAgrees(path: string)
    requires path == [] || path[|path| - 1] != '\n'
    ensures NormalizePathAsWritten(path) == NormalizePath(path)
  {
  }

  /** The slash runs of `/\n/` and `/\n` are single already. */
  lemma CollapseNewlineExamples()
    ensures CollapseSlashes("/\n/") == "/\n/"
    ensures CollapseSlashes("/\n") == "/\n"
  {
    assert "/\n/"[1..] == "\n/" && "\n/"[1..] == "/";
    assert "/\n"[1..] == "\n";
  }

  lemma TrimNewlineExamples()
    ensures TrimSlashes("/\n/") == "/\n"
    ensures TrimSlashes("/\n") == "/\n"
    ensures TrimSlashes("/") == ""
  {
    assert "/\n/"[..2] == "/\n" && "/"[..0] == "";
  }

  /** PCRE's `$` lets the second pattern reach the slash before a final
      newline. */
  lemma PcreNewlineExamples()
    ensures PcreStripTrailingSlashes("/\n/") == "/\n"
    ensures PcreStripTrailingSlashes("/\n") == "\n"
  {
    TrimNewlineExamples();
    assert "/\n"[..1] == "/";
  }

  /** Under PCRE's reading of `$`, normalising twice is not normalising once. */
  lemma NormalizeAsWrittenNotIdempotent()
    ensures NormalizePathAsWritten("/\n/") == "/\n"
    ensures NormalizePathAsWritten("/\n") == "\n"
    ensures NormalizePath("/\n/") == "/\n" == NormalizePath("/\n")
  {
    CollapseNewlineExamples();
    PcreNewlineExamples();
    TrimNewlineExamples();
  }

  /** The path `/s0/s1/...` of the given segments. */
  function SlashPath(segs: seq<string>): string {
    if segs == [] then "" else "/" + segs[0] + SlashPath(segs[1..])
  }

  lemma NoDoubleSlashAppend(a: string, b: string)
    requires NoDoubleSlash(a) && NoDoubleSlash(b)
    requires a == [] || b == [] || a[|a| - 1] != '/' || b[0] != '/'
    ensures NoDoubleSlash(a + b)
  {
    var ab := a + b;
    forall i | 0 <= i < |ab| - 1
      ensures !(ab[i] == '/' && ab[i + 1] == '/')
    {
      if i + 1 < |a| {
        assert ab[i] == a[i] && ab[i + 1] == a[i + 1];
      } else if i >= |a| {
        assert ab[i] == b[i - |a|] && ab[i + 1] == b[i + 1 - |a|];
      }
    }
  }

  /** A path of non-empty segments without slashes is normal. */
  lemma {:induction false} SlashPathIsNormal(segs: seq<string>)
    requires segs != []
    requires forall i :: 0 <= i < |segs| ==> segs[i] != [] && '/' !in segs[i]
    ensures IsNormal(SlashPath(segs))
  {
    var head := "/" + segs[0];
    assert NoDoubleSlash(head) by {
      forall i | 0 <= i < |head| - 1
        ensures !(head[i] == '/' && head[i + 1] == '/')
      {
        assert head[i + 1] == segs[0][i];
      }
    }
    var rest := SlashPath(segs[1..]);
    assert head[|head| - 1] == segs[0][|segs[0]| - 1] != '/';
    if |segs| > 1 {
      SlashPathIsNormal(segs[1..]);
      NoDoubleSlashAppend(head, rest);
      assert (head + rest)[|head + rest| - 1] == rest[|rest| - 1];
    } else {
      assert head + rest == head;
    }
  }

  /** `/seg` is normal for a non-empty segment without slashes. */
  lemma NormalSegment(seg: string)
    requires seg != [] && '/' !in seg
    ensures IsNormal("/" + seg)
  {
    assert [seg][1..] == [];
    assert SlashPath([seg]) == "/" + seg + "";
    SlashPathIsNormal([seg]);
  }

  /** A normal path other than the root stays normal when one more segment
      is appended. */
  lemma NormalExtend(p: string, seg: string)
    requires IsNormal(p) && p != "/"
    requires seg != [] && '/' !in seg
    ensures IsNormal(p + "/" + seg)
  {
    var tail := "/" + seg;
    NormalSegment(seg);
    NoDoubleSlashAppend(p, tail);
    assert p + "/" + seg == p + tail;
    assert (p + tail)[|p + tail| - 1] == seg[|seg| - 1];
    assert seg[|seg| - 1] in seg;
  }

  /** One slash after a normal path is dropped. */
  lemma NormalTrailing(p: string)
    requires IsNormal(p)
    ensures NormalizePath(p + "/") == p
  {
    NormalizeIgnoresTrailingSlash(p);
    NormalizeFixpoint(p);
  }

  /** Trailing slashes after a normal path are dropped. */
  lemma {:induction false} NormalizeDropsTrailingSlashes(p: string, n: nat)
    requires IsNormal(p)
    ensures NormalizePath(p + seq(n, _ => '/')) == p
  {
    if n == 0 {
      assert p + seq(n, _ => '/') == p;
      NormalizeFixpoint(p);
    } else {
      NormalizeDropsTrailingSlashes(p, n - 1);
      assert p + seq(n, _ => '/') == (p + seq(n - 1, _ => '/')) + "/";
      NormalizeIgnoresTrailingSlash(p + seq(n - 1, _ => '/'));
    }
  }
}
