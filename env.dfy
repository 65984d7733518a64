/** config/env.php: the `.env` line parser (loadEnv) and the env() lookup
    with its string coercion. The file's lines are passed in; a missing file
    is `None`. */
module Env {
  import opened Php

  /** First position of `c` in `s`, if any. */
  function IndexOf(s: string, c: char): (r: Option<nat>)
    ensures r.None? <==> c !in s
    ensures r.Some? ==> r.value < |s| && s[r.value] == c && c !in s[..r.value]
  {
    if s == [] then None
    else if s[0] == c then Some(0)
    else
      var t := IndexOf(s[1..], c);
      if t.None? then None
      else
        assert s[..t.value + 1] == [s[0]] + s[1..][..t.value];
        Some(t.value + 1)
  }

  predicate IsQuote(c: char) { c == '"' || c == '\'' }

  /** The `/^(["'])(.*)\1$/` step: a value wrapped in the same quote character
      at both ends loses exactly that pair; anything else is kept. */
  function Unquote(v: string): (r: string)
    ensures |v| >= 2 && IsQuote(v[0]) && v[|v| - 1] == v[0] ==> r == v[1..|v| - 1]
    ensures !(|v| >= 2 && IsQuote(v[0]) && v[|v| - 1] == v[0]) ==> r == v
  {
    if |v| >= 2 && IsQuote(v[0]) && v[|v| - 1] == v[0] then v[1..|v| - 1] else v
  }

  /** One line of `.env` as loadEnv reads it: trimmed; blank, "0" and
      '#'-led lines are skipped; a line without '=' is ignored; otherwise it
      splits at the FIRST '=', both halves are trimmed, a PHP-empty key or one
      containing '#' is skipped, and the value is unquoted. */
  function ParseLine(line: string): (r: Option<(string, string)>)
    ensures r.Some? ==> !IsEmpty(r.value.0) && '#' !in r.value.0 && '=' !in r.value.0
    ensures '=' !in line ==> r.None?
  {
    var l := Trim(line);
    TrimKeeps(line, '=');
    if IsEmpty(l) || l[0] == '#' then None
    else
      match IndexOf(l, '=')
      case None => None
      case Some(i) =>
        var key := Trim(l[..i]);
        TrimKeeps(l[..i], '=');
        if IsEmpty(key) || '#' in key then None
        else Some((key, Unquote(Trim(l[i + 1..]))))
  }

  /** Trimming only removes characters: whatever is in the trimmed text was in the input. */
  lemma TrimKeeps(s: string, c: char)
    ensures c in Trim(s) ==> c in s
  {
    var t := Trim(s);
    if c in t {
      var j :| 0 <= j < |t| && t[j] == c;
      var a := |s| - |TrimLeft(s)|;
      assert t == s[a..][..|t|];
      assert t[j] == s[a + j];
    }
  }

  /** The assignments loadEnv makes from `lines`, on top of `m`: lines are
      applied in order, so a later line for a key overwrites an earlier one. */
  function Apply(m: map<string, string>, lines: seq<string>): map<string, string>
  {
    if lines == [] then m else Assign(Apply(m, lines[..|lines| - 1]), ParseLine(lines[|lines| - 1]))
  }

  /** The write one parsed line makes (none for a skipped line). */
  function Assign(m: map<string, string>, p: Option<(string, string)>): map<string, string>
  {
    match p
    case None => m
    case Some(kv) => m[kv.0 := kv.1]
  }

  lemma ApplyPrefix(m: map<string, string>, lines: seq<string>, i: nat)
    requires i < |lines|
    ensures Apply(m, lines[..i + 1]) == Assign(Apply(m, lines[..i]), ParseLine(lines[i]))
  {
    assert lines[..i + 1][..i] == lines[..i];
  }

  /** The value the last line defining `key` gives it, if one does. */
  function LastDefinition(lines: seq<string>, key: string): Option<string>
  {
    if lines == [] then None
    else
      var p := ParseLine(lines[|lines| - 1]);
      if p.Some? && p.value.0 == key then Some(p.value.1)
      else LastDefinition(lines[..|lines| - 1], key)
  }

  /** After loading, a key holds the value of the last line that defines it;
      a key no line defines keeps its earlier value (or stays absent). */
  lemma {:induction false} ApplyLastWins(m: map<string, string>, lines: seq<string>, key: string)
    ensures LastDefinition(lines, key).Some? ==>
      key in Apply(m, lines) && Apply(m, lines)[key] == LastDefinition(lines, key).value
    ensures LastDefinition(lines, key).None? ==>
      (key in Apply(m, lines) <==> key in m) && (key in m ==> Apply(m, lines)[key] == m[key])
  {
    if lines != [] {
      ApplyLastWins(m, lines[..|lines| - 1], key);
    }
  }

  /** The first '=' of `key + "=" + rest` is the one after the key when the key has none. */
  lemma FirstEquals(key: string, rest: string)
    requires '=' !in key
    ensures IndexOf(key + "=" + rest, '=') == Some(|key|)
    ensures (key + "=" + rest)[..|key|] == key && (key + "=" + rest)[|key| + 1..] == rest
  {
    var line := key + "=" + rest;
    var i := IndexOf(line, '=');
    assert line[|key|] == '=';
    assert line[..|key|] == key;
  }

  /** A line that trims to `head + "=" + rest`, with no '=' in `head`, splits
      there: the key is the trimmed head and the value the unquoted trimmed rest. */
  lemma ParseTrimmedAt(line: string, head: string, rest: string)
    requires Trim(line) == head + "=" + rest && '=' !in head
    requires !IsEmpty(head + "=" + rest) && (head + "=" + rest)[0] != '#'
    ensures ParseLine(line) ==
      if IsEmpty(Trim(head)) || '#' in Trim(head) then None else Some((Trim(head), Unquote(Trim(rest))))
  {
    FirstEquals(head, rest);
  }

  /** A well-formed assignment line is read back as exactly its key and value,
      even when the value itself contains '='. */
  lemma ParseAssignment(key: string, value: string)
    requires key != [] && !IsEmpty(key) && '#' !in key && '=' !in key
    requires !IsTrimChar(key[0]) && !IsTrimChar(key[|key| - 1])
    requires value == [] || (!IsTrimChar(value[0]) && !IsTrimChar(value[|value| - 1]))
    requires !(|value| >= 2 && IsQuote(value[0]) && value[|value| - 1] == value[0])
    ensures ParseLine(key + "=" + value) == Some((key, value))
  {
    var blank: string := [];
    assert key + "=" + value == blank + key + blank + "=" + blank + value + blank;
    ParsePaddedLine(blank, key, blank, blank, value, blank);
  }

  /** A quoted value loses its quotes and nothing else. */
  lemma ParseQuotedAssignment(key: string, q: char, inner: string)
    requires key != [] && !IsEmpty(key) && '#' !in key && '=' !in key
    requires !IsTrimChar(key[0]) && !IsTrimChar(key[|key| - 1])
    requires IsQuote(q)
    ensures ParseLine(key + "=" + ([q] + inner + [q])) == Some((key, inner))
  {
    var value := [q] + inner + [q];
    assert value[0] == q && value[|value| - 1] == q;
    var blank: string := [];
    assert key + "=" + value == blank + key + blank + "=" + blank + value + blank;
    ParsePaddedLine(blank, key, blank, blank, value, blank);
    assert value[1..|value| - 1] == inner;
  }

  /** A line written with blanks around the key, around the '=' and around
      the value is judged on the bare key: a key "0" or one containing '#' is
      skipped, and any other key reads back with the unquoted bare value. */
  lemma ParsePaddedLine(ws1: string, key: string, ws2: string, ws3: string, value: string, ws4: string)
    requires AllTrimChars(ws1) && AllTrimChars(ws2) && AllTrimChars(ws3) && AllTrimChars(ws4)
    requires key != [] && key[0] != '#' && '=' !in key
    requires !IsTrimChar(key[0]) && !IsTrimChar(key[|key| - 1])
    requires value == [] || (!IsTrimChar(value[0]) && !IsTrimChar(value[|value| - 1]))
    ensures ParseLine(ws1 + key + ws2 + "=" + ws3 + value + ws4) ==
      if IsEmpty(key) || '#' in key then None else Some((key, Unquote(value)))
  {
    var line := ws1 + key + ws2 + "=" + ws3 + value + ws4;
    var head := key + ws2;
    var rest := if value == [] then [] else ws3 + value;
    PaddedCore(ws1, key, ws2, ws3, value, ws4);
    assert (head + "=" + rest)[0] == key[0];
    assert !IsEmpty(head + "=" + rest) by { assert |head + "=" + rest| > 1; }
    ParseTrimmedAt(line, head, rest);
    TrimPadded([], key, ws2);
    assert [] + key + ws2 == head;
    if value != [] {
      TrimPadded(ws3, value, []);
      assert ws3 + value + [] == rest;
    }
  }

  /** Lines of blanks, and lines whose only text is "0", are skipped. */
  lemma ParseSkipsBlankOrZero(ws1: string, z: string, ws2: string)
    requires AllTrimChars(ws1) && AllTrimChars(ws2)
    requires z == "" || z == "0"
    ensures ParseLine(ws1 + z + ws2).None?
  {
    TrimPadded(ws1, z, ws2);
  }

  /** A line whose first non-blank character is '#' is a comment and is
      skipped, whatever follows (an '=' included). */
  lemma ParseSkipsComment(ws: string, rest: string)
    requires AllTrimChars(ws)
    ensures ParseLine(ws + "#" + rest).None?
  {
    var text := "#" + rest;
    assert ws + "#" + rest == ws + text;
    TrimLeftPadded(ws, text);
    assert text[0] == '#';
    assert Trim(ws + text) == TrimRight(text);
    assert TrimRight(text) != [] by { assert !IsTrimChar(text[0]); }
  }

  /** A line whose first non-blank character is '=' has an empty key and is skipped. */
  lemma ParseSkipsEmptyKey(ws: string, rest: string)
    requires AllTrimChars(ws)
    ensures ParseLine(ws + "=" + rest).None?
  {
    var text := "=" + rest;
    assert ws + "=" + rest == ws + text;
    TrimLeftPadded(ws, text);
    var l := TrimRight(text);
    assert Trim(ws + text) == l;
    assert l != [] by { assert !IsTrimChar(text[0]); }
    assert l[0] == '=';
    assert IndexOf(l, '=') == Some(0);
    assert l[..0] == [];
  }

  /** Trimming the padded line leaves everything from the key's first
      character to the value's last (to the '=' when the value is empty). */
  lemma PaddedCore(ws1: string, key: string, ws2: string, ws3: string, value: string, ws4: string)
    requires AllTrimChars(ws1) && AllTrimChars(ws3) && AllTrimChars(ws4)
    requires key != [] && !IsTrimChar(key[0])
    requires value == [] || (!IsTrimChar(value[0]) && !IsTrimChar(value[|value| - 1]))
    ensures Trim(ws1 + key + ws2 + "=" + ws3 + value + ws4) ==
      key + ws2 + "=" + (if value == [] then [] else ws3 + value)
  {
    var rest := if value == [] then [] else ws3 + value;
    var tail := if value == [] then ws3 + ws4 else ws4;
    var core := key + ws2 + "=" + rest;
    assert AllTrimChars(tail) by {
      forall j | 0 <= j < |tail| ensures IsTrimChar(tail[j]) {
        if value == [] {
          if j < |ws3| { assert tail[j] == ws3[j]; } else { assert tail[j] == ws4[j - |ws3|]; }
        }
      }
    }
    assert ws1 + key + ws2 + "=" + ws3 + value + ws4 == ws1 + core + tail;
    assert core[0] == key[0];
    assert core[|core| - 1] == if value == [] then '=' else value[|value| - 1];
    TrimPadded(ws1, core, tail);
  }

  /** What env() returns: a string, or one of the coerced values, or the caller's default. */
  datatype EnvValue = Str(s: string) | Bool(b: bool) | Int(i: int) | Null

  /** env()'s case-insensitive conversion of the words true / false / empty /
      null (bare or in parentheses); every other string is returned as is. */
  function Coerce(v: string): (r: EnvValue)
    ensures ToLower(v) in {"true", "(true)"} ==> r == Bool(true)
    ensures ToLower(v) in {"false", "(false)"} ==> r == Bool(false)
    ensures ToLower(v) in {"empty", "(empty)"} ==> r == Str("")
    ensures ToLower(v) in {"null", "(null)"} ==> r == Null
    ensures ToLower(v) !in {"true", "(true)", "false", "(false)", "empty", "(empty)", "null", "(null)"} ==> r == Str(v)
  {
    var l := ToLower(v);
    if l == "true" || l == "(true)" then Bool(true)
    else if l == "false" || l == "(false)" then Bool(false)
    else if l == "empty" || l == "(empty)" then Str("")
    else if l == "null" || l == "(null)" then Null
    else Str(v)
  }

  /** Coercion ignores letter case: two strings that agree once lower-cased
      ("TRUE", "True", "true") coerce to the same keyword value, and a string
      that is not a keyword in any case comes back unchanged. */
  lemma CoerceIgnoresCase(v: string, w: string)
    requires ToLower(v) == ToLower(w)
    ensures ToLower(v) in {"true", "(true)", "false", "(false)", "empty", "(empty)", "null", "(null)"} ==>
      Coerce(v) == Coerce(w)
    ensures ToLower(v) !in {"true", "(true)", "false", "(false)", "empty", "(empty)", "null", "(null)"} ==>
      Coerce(v) == Str(v) && Coerce(w) == Str(w)
  {
  }

  /** For instance, "TRUE", "True" and "true" all coerce to true. */
  lemma CoerceTrueAnyCase()
    ensures Coerce("TRUE") == Coerce("True") == Coerce("true") == Bool(true)
  {
    assert ToLower("TRUE") == "true";
    assert ToLower("True") == "true";
    CoerceIgnoresCase("TRUE", "true");
  }

  /** The three places loadEnv writes and env() reads: `$_ENV`, `$_SERVER`
      and the process environment (putenv / getenv). */
  class Environment {
    var envVars: map<string, string>
    var serverVars: map<string, string>
    var processEnv: map<string, string>

    constructor (server: map<string, string>, process: map<string, string>)
      ensures envVars == map[] && serverVars == server && processEnv == process
    {
      envVars, serverVars, processEnv := map[], server, process;
    }

    /** loadEnv($path): false and no change for a missing file; otherwise every
        accepted line is written to all three stores, in order. */
    method LoadEnv(file: Option<seq<string>>) returns (ok: bool)
      modifies this
      ensures ok <==> file.Some?
      ensures !ok ==> envVars == old(envVars) && serverVars == old(serverVars) && processEnv == old(processEnv)
      ensures ok ==> envVars == Apply(old(envVars), file.value)
      ensures ok ==> serverVars == Apply(old(serverVars), file.value)
      ensures ok ==> processEnv == Apply(old(processEnv), file.value)
    {
      if file.None? {
        return false;
      }
      var lines := file.value;
      var i := 0;
      while i < |lines|
        invariant 0 <= i <= |lines|
        invariant envVars == Apply(old(envVars), lines[..i])
        invariant serverVars == Apply(old(serverVars), lines[..i])
        invariant processEnv == Apply(old(processEnv), lines[..i])
      {
        ApplyPrefix(old(envVars), lines, i);
        ApplyPrefix(old(serverVars), lines, i);
        ApplyPrefix(old(processEnv), lines, i);
        var parsed := ParseLine(lines[i]);
        processEnv := Assign(processEnv, parsed);
        envVars := Assign(envVars, parsed);
        serverVars := Assign(serverVars, parsed);
        i := i + 1;
      }
      assert lines[..i] == lines;
      return true;
    }

    /** env($key, $default): `$_ENV` first, then `$_SERVER`, then the process
        environment, each coerced; the default when all three miss. */
    function Lookup(key: string, default: EnvValue): (r: EnvValue)
      reads this
      ensures key in envVars ==> r == Coerce(envVars[key])
      ensures key !in envVars && key in serverVars ==> r == Coerce(serverVars[key])
      ensures key !in envVars && key !in serverVars && key in processEnv ==> r == Coerce(processEnv[key])
      ensures key !in envVars && key !in serverVars && key !in processEnv ==> r == default
    {
      if key in envVars then Coerce(envVars[key])
      else if key in serverVars then Coerce(serverVars[key])
      else if key in processEnv then Coerce(processEnv[key])
      else default
    }
  }

  /** What env() reads after loadEnv: the value of the last line that
      defines the key, coerced, whatever `$_ENV` held before. */
  lemma LoadedKeyReadsLastLine(e: Environment, before: map<string, string>, lines: seq<string>, key: string, default: EnvValue)
    requires e.envVars == Apply(before, lines)
    requires LastDefinition(lines, key).Some?
    ensures e.Lookup(key, default) == Coerce(LastDefinition(lines, key).value)
  {
    ApplyLastWins(before, lines, key);
  }
}
