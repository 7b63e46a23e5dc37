/**
 * The identity token of a RADIUS server inside a server group:
 * `"<name>/<auth_port>/<acct_port>"`, with the ports defaulting to 1812 and 1813.
 * `ServerName` builds the token from a server's options and `ParseServerName`
 * splits it back, using Ruby's `String#split` semantics.
 */
module RadiusTokens {
  import opened Wrappers

  const DefaultAuthPort: string := "1812"
  const DefaultAcctPort: string := "1813"
  const Separator: char := '/'

  /** The options of one server: a missing entry is Ruby's `nil`. */
  datatype ServerOpts = ServerOpts(name: Option<string>, authPort: Option<string>, acctPort: Option<string>)

  // ---------------------------------------------------------------------------
  // Ruby's String#split with a one-character separator
  // ---------------------------------------------------------------------------

  /** Every field of `s` between separators, empty fields included (one more field than separators). */
  function Fields(s: string, sep: char): (r: seq<string>)
    ensures |r| >= 1
    decreases |s|
  {
    if s == [] then [""]
    else
      var rest := Fields(s[1..], sep);
      if s[0] == sep then [""] + rest
      else [[s[0]] + rest[0]] + rest[1..]
  }

  /** Ruby drops the empty fields at the end of a split (with no limit given). */
  function DropTrailingEmpty(fs: seq<string>): (r: seq<string>)
    ensures |r| <= |fs| && r == fs[..|r|]
    ensures r != [] ==> r[|r| - 1] != ""
    ensures forall k :: |r| <= k < |fs| ==> fs[k] == ""
  {
    if fs == [] then []
    else if fs[|fs| - 1] == "" then DropTrailingEmpty(fs[..|fs| - 1])
    else fs
  }

  /** `s.split(sep)` in Ruby: for instance `"a//b/".split('/') == ["a", "", "b"]` and `"".split('/') == []`. */
  function Split(s: string, sep: char): seq<string>
  {
    DropTrailingEmpty(Fields(s, sep))
  }

  /** `a + sep + b`, the inverse of splitting at one separator. */
  function JoinAt(a: string, sep: char, b: string): string
  {
    a + [sep] + b
  }

  /** Joins fields with `sep` between consecutive ones. */
  function Join(fs: seq<string>, sep: char): string
    requires |fs| >= 1
  {
    if |fs| == 1 then fs[0] else JoinAt(fs[0], sep, Join(fs[1..], sep))
  }

  lemma {:induction false} FieldsWithoutSeparator(a: string, sep: char)
    requires sep !in a
    ensures Fields(a, sep) == [a]
    decreases |a|
  {
    if a != [] {
      FieldsWithoutSeparator(a[1..], sep);
      assert [a[0]] + a[1..] == a;
    }
  }

  /** Splitting at the first separator gives the text before it, then the fields of the rest. */
  lemma {:induction false} FieldsOfJoinAt(a: string, sep: char, b: string)
    requires sep !in a
    ensures Fields(JoinAt(a, sep, b), sep) == [a] + Fields(b, sep)
    decreases |a|
  {
    var s := JoinAt(a, sep, b);
    if a == [] {
      assert s[1..] == b;
    } else {
      assert s[1..] == JoinAt(a[1..], sep, b);
      FieldsOfJoinAt(a[1..], sep, b);
      assert [a[0]] + a[1..] == a;
    }
  }

  /** No field produced by a split contains the separator. */
  lemma {:induction false} FieldsAreSeparatorFree(s: string, sep: char)
    ensures forall k :: 0 <= k < |Fields(s, sep)| ==> sep !in Fields(s, sep)[k]
    decreases |s|
  {
    if s != [] {
      FieldsAreSeparatorFree(s[1..], sep);
    }
  }

  /** Splitting then joining gives back the original text: the fields are exactly the text between separators. */
  lemma {:induction false} JoinFields(s: string, sep: char)
    ensures Join(Fields(s, sep), sep) == s
    decreases |s|
  {
    if s != [] {
      var rest := Fields(s[1..], sep);
      JoinFields(s[1..], sep);
      assert [s[0]] + s[1..] == s;
      if s[0] == sep {
        var fs := [""] + rest;
        assert Fields(s, sep) == fs;
        assert fs[1..] == rest;
        assert Join(fs, sep) == JoinAt("", sep, Join(rest, sep));
      } else {
        JoinPrependChar(s[0], rest, sep);
      }
    }
  }

  /** Prepending a character to the first field prepends it to the joined text. */
  lemma JoinPrependChar(c: char, fs: seq<string>, sep: char)
    requires |fs| >= 1
    ensures Join([[c] + fs[0]] + fs[1..], sep) == [c] + Join(fs, sep)
  {
    var gs := [[c] + fs[0]] + fs[1..];
    assert gs[0] == [c] + fs[0] && gs[1..] == fs[1..];
    if |fs| > 1 {
      assert Join(gs, sep) == JoinAt([c] + fs[0], sep, Join(fs[1..], sep));
      assert JoinAt([c] + fs[0], sep, Join(fs[1..], sep)) == [c] + JoinAt(fs[0], sep, Join(fs[1..], sep));
    }
  }

  /** A trailing separator never changes a Ruby split: `"h/".split('/') == "h".split('/')`. */
  lemma {:induction false} SplitIgnoresTrailingSeparator(s: string, sep: char)
    ensures Split(s + [sep], sep) == Split(s, sep)
  {
    FieldsAppendSeparator(s, sep);
    var fs := Fields(s, sep);
    assert (fs + [""])[..|fs + [""]| - 1] == fs;
  }

  lemma {:induction false} FieldsAppendSeparator(s: string, sep: char)
    ensures Fields(s + [sep], sep) == Fields(s, sep) + [""]
    decreases |s|
  {
    if s == [] {
      assert [sep][1..] == [];
    } else {
      assert (s + [sep])[1..] == s[1..] + [sep];
      FieldsAppendSeparator(s[1..], sep);
    }
  }

  /** The fields of `a/b/c` are `a`, `b`, `c` when no part holds a separator and `c` is not empty. */
  lemma SplitThree(a: string, b: string, c: string, sep: char)
    requires sep !in a && sep !in b && sep !in c && c != ""
    ensures Split(JoinAt(a, sep, JoinAt(b, sep, c)), sep) == [a, b, c]
  {
    FieldsOfJoinAt(a, sep, JoinAt(b, sep, c));
    FieldsOfJoinAt(b, sep, c);
    FieldsWithoutSeparator(c, sep);
  }

  // ---------------------------------------------------------------------------
  // server_name and parse_server_name
  // ---------------------------------------------------------------------------

  /** Ruby's string interpolation of an optional value: `nil` interpolates as the empty string. */
  function Interpolate(v: Option<string>): string
  {
    v.GetOr("")
  }

  /** `server_name(opts)`: the token `name/auth_port/acct_port`, missing ports replaced by their defaults. */
  function ServerName(opts: ServerOpts): string
  {
    JoinAt(Interpolate(opts.name), Separator,
      JoinAt(opts.authPort.GetOr(DefaultAuthPort), Separator, opts.acctPort.GetOr(DefaultAcctPort)))
  }

  /** `parse_server_name(token)`: the first three fields of the split token; missing ports take their defaults. */
  function ParseServerName(token: string): (r: ServerOpts)
    ensures r.authPort.Some? && r.acctPort.Some?
    ensures r.name.Some? ==> Separator !in r.name.value
    ensures Separator !in r.authPort.value && Separator !in r.acctPort.value
    ensures r.name.None? <==> forall k :: 0 <= k < |token| ==> token[k] == Separator
  {
    var fields := Split(token, Separator);
    FieldsAreSeparatorFree(token, Separator);
    AllSeparatorsIffNoFields(token, Separator);
    ServerOpts(
      if |fields| > 0 then Some(fields[0]) else None,
      Some(if |fields| > 1 then fields[1] else DefaultAuthPort),
      Some(if |fields| > 2 then fields[2] else DefaultAcctPort))
  }

  /** A Ruby split yields no field at all exactly when the text is made of separators only. */
  lemma {:induction false} AllSeparatorsIffNoFields(s: string, sep: char)
    ensures Split(s, sep) == [] <==> forall k :: 0 <= k < |s| ==> s[k] == sep
    decreases |s|
  {
    if s != [] {
      AllSeparatorsIffNoFields(s[1..], sep);
      var rest := Fields(s[1..], sep);
      if s[0] == sep {
        assert Fields(s, sep) == [""] + rest;
        DropLeadingEmpty(rest);
        if forall k :: 0 <= k < |s| - 1 ==> s[1..][k] == sep {
          assert forall k :: 0 <= k < |s| ==> s[k] == sep by {
            forall k | 0 <= k < |s| ensures s[k] == sep {
              if k > 0 { assert s[1..][k - 1] == s[k]; }
            }
          }
        } else {
          var k :| 0 <= k < |s| - 1 && s[1..][k] != sep;
          assert s[k + 1] != sep;
        }
      } else {
        var fs := Fields(s, sep);
        assert fs[0] == [s[0]] + rest[0] && fs[0] != "";
        DropTrailingKeepsNonEmpty(fs, 0);
      }
    }
  }

  lemma DropLeadingEmpty(rest: seq<string>)
    ensures DropTrailingEmpty([""] + rest) == [] <==> DropTrailingEmpty(rest) == []
  {
    var fs := [""] + rest;
    var r := DropTrailingEmpty(fs);
    if r == [] {
      var r' := DropTrailingEmpty(rest);
      if r' != [] {
        DropTrailingKeepsNonEmpty(fs, |r'|);
      }
    }
  }

  /** A non-empty field survives the removal of trailing empty fields. */
  lemma DropTrailingKeepsNonEmpty(fs: seq<string>, k: nat)
    requires k < |fs| && fs[k] != ""
    ensures |DropTrailingEmpty(fs)| > k
  {
  }

  /** A server with neither port given is named `<name>/1812/1813`. */
  lemma ServerNameDefaults(name: string)
    ensures ServerName(ServerOpts(Some(name), None, None)) == name + "/1812/1813"
  {
  }

  /** A bare host token `"h"` parses to the host with both default ports. */
  lemma ParseBareHost(host: string)
    requires host != "" && Separator !in host
    ensures ParseServerName(host) == ServerOpts(Some(host), Some(DefaultAuthPort), Some(DefaultAcctPort))
  {
    FieldsWithoutSeparator(host, Separator);
  }

  /** Missing trailing fields take the defaults: `"h/p"` keeps `p` as auth port and defaults the accounting port. */
  lemma ParseHostAndAuthPort(host: string, authPort: string)
    requires Separator !in host && Separator !in authPort && authPort != ""
    ensures ParseServerName(JoinAt(host, Separator, authPort)) == ServerOpts(Some(host), Some(authPort), Some(DefaultAcctPort))
  {
    FieldsOfJoinAt(host, Separator, authPort);
    FieldsWithoutSeparator(authPort, Separator);
  }

  /**
   * Round trip: parsing a server's token gives back its name and its ports, the missing
   * ones replaced by their defaults, as long as no part contains a separator and the
   * accounting port is not empty (Ruby's split drops an empty last field).
   */
  lemma ParseServerNameOfServerName(opts: ServerOpts)
    requires opts.name.Some? && Separator !in opts.name.value
    requires Separator !in opts.authPort.GetOr(DefaultAuthPort)
    requires Separator !in opts.acctPort.GetOr(DefaultAcctPort) && opts.acctPort.GetOr(DefaultAcctPort) != ""
    ensures ParseServerName(ServerName(opts))
      == ServerOpts(opts.name, Some(opts.authPort.GetOr(DefaultAuthPort)), Some(opts.acctPort.GetOr(DefaultAcctPort)))
  {
    SplitThree(opts.name.value, opts.authPort.GetOr(DefaultAuthPort), opts.acctPort.GetOr(DefaultAcctPort), Separator);
  }

  /** With every field given, the round trip is the identity. */
  lemma ParseServerNameOfFullServerName(opts: ServerOpts)
    requires opts.name.Some? && opts.authPort.Some? && opts.acctPort.Some?
    requires Separator !in opts.name.value && Separator !in opts.authPort.value
    requires Separator !in opts.acctPort.value && opts.acctPort.value != ""
    ensures ParseServerName(ServerName(opts)) == opts
  {
    ParseServerNameOfServerName(opts);
  }

  /** Reverse round trip: a three-part token is rebuilt exactly from its parse. */
  lemma ServerNameOfParseServerName(name: string, authPort: string, acctPort: string)
    requires Separator !in name && Separator !in authPort && Separator !in acctPort && acctPort != ""
    ensures ServerName(ParseServerName(JoinAt(name, Separator, JoinAt(authPort, Separator, acctPort))))
      == JoinAt(name, Separator, JoinAt(authPort, Separator, acctPort))
  {
    SplitThree(name, authPort, acctPort, Separator);
  }
}
