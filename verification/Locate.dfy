/** How a Directory_entry finds its relative path (myLibraries/Directory_entry.cpp): by matching the
    absolute path against a regular expression into which the base path is put as it is. */
module Locate {
  import opened Base
  import opened Mac
  import opened Validator

  /** What "." does not match. */
  predicate LineBreak(c: char) { c == '\n' || c == '\r' }

  predicate OneLine(s: string) { forall i :: 0 <= i < |s| ==> !LineBreak(s[i]) }

  /** Characters that stand for themselves, "." included, which stands for itself and for more. */
  predicate Plain(c: char) { c !in "+*?()[]{}|^$\\" && !LineBreak(c) }

  predicate PlainText(s: string) { forall i :: 0 <= i < |s| ==> Plain(s[i]) }

  /** One element of the expression against one character. */
  predicate Takes(e: char, c: char) { if e == '.' then !LineBreak(c) else c == e }

  /** All of `s` matches `base`, in which "+" means once or more. A "+" with nothing before it is an error. */
  predicate Matches(base: string, s: string)
    decreases |s|
  {
    if base == "" then s == ""
    else
      && base[0] != '+' && s != "" && Takes(base[0], s[0])
      && (if |base| > 1 && base[1] == '+' then Matches(base, s[1..]) || Matches(base[2..], s[1..])
          else Matches(base[1..], s[1..]))
  }

  /** The expression (base)(/.*) matches: otherwise the constructor throws. */
  ghost predicate Located(base: string, path: string) {
    exists i :: 0 <= i < |path| && Splits(base, path, i)
  }

  /** A match whose second group, the relative path, begins at `i`. */
  predicate Splits(base: string, path: string, i: nat)
    requires i < |path|
  {
    Matches(base, path[..i]) && path[i] == '/' && OneLine(path[i..])
  }

  lemma {:induction false} PlainMatches(base: string, s: string)
    requires '+' !in base
    ensures Matches(base, s) <==> |s| == |base| && forall i :: 0 <= i < |s| ==> Takes(base[i], s[i])
    decreases |s|
  {
    hide Takes;
    if base != "" && s != "" {
      assert base[1..] != "" ==> base[1] in base;
      PlainMatches(base[1..], s[1..]);
      assert forall i :: 0 < i < |s| && |s| == |base| ==> s[i] == s[1..][i - 1] && base[i] == base[1..][i - 1];
      if |s| == |base| && Matches(base[1..], s[1..]) {
        forall i | 0 < i < |s| ensures Takes(base[i], s[i]) {
          assert Takes(base[1..][i - 1], s[1..][i - 1]);
        }
      }
    }
  }

  /** Every element takes at least one character. */
  lemma {:induction false} NoShorter(base: string, s: string)
    requires Matches(base, s)
    ensures |s| >= |Unquantified(base)|
    decreases |s|
  {
    if base != "" {
      if |base| > 1 && base[1] == '+' {
        if Matches(base, s[1..]) {
          NoShorter(base, s[1..]);
        } else {
          NoShorter(base[2..], s[1..]);
          assert base[1..][1..] == base[2..];
        }
      } else {
        NoShorter(base[1..], s[1..]);
      }
    }
  }

  function Unquantified(base: string): string {
    if base == "" then "" else (if base[0] == '+' then "" else [base[0]]) + Unquantified(base[1..])
  }

  /** No element but "." takes a "+". */
  lemma {:induction false} NoPlusTaken(base: string, s: string)
    requires Matches(base, s) && '.' !in base
    ensures '+' !in s
    decreases |s|
  {
    if base != "" {
      assert s == [s[0]] + s[1..];
      if |base| > 1 && base[1] == '+' {
        if Matches(base, s[1..]) {
          NoPlusTaken(base, s[1..]);
        } else {
          NoPlusTaken(base[2..], s[1..]);
        }
      } else {
        NoPlusTaken(base[1..], s[1..]);
      }
    }
  }

  /** Below a base path of plain characters every element of one line is found, and under its own name. */
  lemma PlainIsLocated(base: string, p: Path)
    requires PlainText(base) && p != "" && p[0] == '/'
    ensures Located(base, base + p) <==> OneLine(p)
    ensures forall i :: 0 <= i < |base + p| && Splits(base, base + p, i) ==> (base + p)[i..] == p
  {
    assert '+' !in base;
    var path := base + p;
    assert path[|base|..] == p && path[..|base|] == base;
    PlainMatches(base, base);
    forall i | 0 <= i < |path| && Splits(base, path, i) ensures path[i..] == p {
      PlainMatches(base, path[..i]);
    }
    assert OneLine(p) ==> Splits(base, path, |base|);
  }

  /** Below a base path without "+" an element is found if and only if its path begins like the base path, "." there
      standing for anything but a line break, and goes on with a slash and no line break. */
  lemma LocatedIff(base: string, path: string)
    requires '+' !in base
    ensures Located(base, path) <==>
            && |path| > |base| && path[|base|] == '/' && '\n' !in path[|base|..] && '\r' !in path[|base|..]
            && forall i :: 0 <= i < |base| ==> path[i] == base[i] || (base[i] == '.' && path[i] != '\n' && path[i] != '\r')
  {
    forall i | 0 <= i < |path| && Splits(base, path, i) ensures i == |base| {
      PlainMatches(base, path[..i]);
    }
    if |path| > |base| {
      PlainMatches(base, path[..|base|]);
      assert Located(base, path) <==> Splits(base, path, |base|);
      OneLineMeans(path[|base|..]);
      assert forall i :: 0 <= i < |base| ==> path[..|base|][i] == path[i];
    }
  }

  lemma OneLineMeans(s: string)
    ensures OneLine(s) <==> '\n' !in s && '\r' !in s
  {
  }

  lemma {:induction false} UnquantifiedLength(pre: string, post: string)
    requires '+' !in pre
    ensures |Unquantified(pre + post)| == |pre| + |Unquantified(post)|
  {
    if pre == "" {
      assert pre + post == post;
    } else {
      assert (pre + post)[1..] == pre[1..] + post;
      UnquantifiedLength(pre[1..], post);
    }
  }

  /** Below a base path with a "+" and no ".", nothing is found: what is before the "+" would have to
      contain more characters than it does. */
  lemma PlusIsNotLocated(pre: string, post: string, p: Path)
    requires '+' !in pre && '.' !in pre && '.' !in post && post != "" && post[|post| - 1] != '+'
    requires p != "" && p[0] == '/'
    ensures !Located(pre + "+" + post, pre + "+" + post + p)
  {
    var base := pre + "+" + post;
    var path := base + p;
    UnquantifiedLength(pre, "+" + post);
    assert pre + ("+" + post) == base && ("+" + post)[1..] == post;
    LastIsUnquantified(post);
    forall i | 0 <= i < |path| ensures !Splits(base, path, i) {
      assert path[|pre|] == '+' && (i > |pre| ==> path[..i][|pre|] == '+');
      if Splits(base, path, i) {
        NoPlusTaken(base, path[..i]);
        NoShorter(base, path[..i]);
      }
    }
  }

  lemma {:induction false} LastIsUnquantified(s: string)
    requires s != "" && s[|s| - 1] != '+'
    ensures |Unquantified(s)| >= 1
  {
    if |s| > 1 {
      LastIsUnquantified(s[1..]);
    }
  }

  /** The folder of a user on a machine: its elements are found exactly as far as the name has no "+" and
      theirs no line break. (With both "+" and "." in it, a name may or may not match itself.) */
  lemma OwnElementsAreLocated(root: string, user: string, mac: string, p: Path)
    requires PlainText(root) && ValidUsername(user) && ValidateMac(mac) == Some(mac) && p != "" && p[0] == '/'
    ensures var base := root + "/" + FolderName(user, mac);
            && ('+' !in user ==> (Located(base, base + p) <==> '\n' !in p && '\r' !in p))
            && ('+' in user && '.' !in user && '.' !in root ==> !Located(base, base + p))
  {
    assert '+' !in root;
    OneLineMeans(p);
    hide ValidateMac, Located, FolderName, Plain, PlainText;
    var tail := "_" + Dashed(mac);
    FolderTail(user, mac);
    assert root + "/" + FolderName(user, mac) == root + "/" + user + tail;
    if '+' !in user {
      UserIsPlain(user);
      PlainJoin(root, "/");
      PlainJoin(root + "/", user);
      PlainJoin(root + "/" + user, tail);
      PlainIsLocated(root + "/" + user + tail, p);
    } else if '.' !in user && '.' !in root {
      PlusInUser(root + "/", user, tail, p);
    }
  }

  lemma FolderTail(user: string, mac: string)
    requires ValidateMac(mac) == Some(mac)
    ensures FolderName(user, mac) == user + ("_" + Dashed(mac))
    ensures PlainText("/") && PlainText("_" + Dashed(mac))
    ensures '.' !in "_" + Dashed(mac) && '+' !in "_" + Dashed(mac)
  {
    hide ValidateMac;
    CanonicalChars(mac);
    var tail := "_" + Dashed(mac);
    assert forall i :: 0 <= i < |tail| ==> tail[i] == '_' || tail[i] == '-' || IsHex(tail[i]);
  }

  lemma UserIsPlain(user: string)
    requires ValidUsername(user) && '+' !in user
    ensures PlainText(user)
  {
    forall i | 0 <= i < |user| ensures Plain(user[i]) {
      assert user[i] in user;
    }
  }

  lemma PlainJoin(a: string, b: string)
    requires PlainText(a) && PlainText(b)
    ensures PlainText(a + b)
  {
    hide Plain;
  }

  lemma PlusInUser(root: string, user: string, tail: string, p: Path)
    requires '+' !in root && '+' in user && '.' !in user && '.' !in root && '.' !in tail && '+' !in tail
    requires tail != "" && p != "" && p[0] == '/'
    ensures !Located(root + user + tail, root + user + tail + p)
  {
    hide Located;
    var j := FirstPlus(user);
    var pre, post := root + user[..j], user[j + 1..] + tail;
    assert user == user[..j] + "+" + user[j + 1..];
    assert root + user + tail == pre + "+" + post;
    assert post[|post| - 1] == tail[|tail| - 1] && tail[|tail| - 1] in tail;
    PlusIsNotLocated(pre, post, p);
  }

  function FirstPlus(s: string): (j: nat)
    requires '+' in s
    ensures j < |s| && s[j] == '+' && '+' !in s[..j]
  {
    if s[0] == '+' then 0
    else
      var j := FirstPlus(s[1..]) + 1;
      assert s[..j] == [s[0]] + s[1..][..j - 1];
      j
  }
}
