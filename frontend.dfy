/** The front-end server's page injection and configuration report: the
    Firebase settings from the environment are written into the page by a
    chain of String.prototype.replace calls, and `/config-check` reports
    which of them are set. The environment is a map from variable name to
    value; a variable that is not set is not in the map. */
module Frontend {
  import opened JsString

  /** The six variables, in the order the replace chain handles them. */
  const ConfigNames: seq<string> := [
    "FIREBASE_API_KEY", "FIREBASE_AUTH_DOMAIN", "FIREBASE_PROJECT_ID",
    "FIREBASE_STORAGE_BUCKET", "FIREBASE_MESSAGING_SENDER_ID", "FIREBASE_APP_ID"
  ]

  /** The placeholder the page carries for a variable. */
  function Placeholder(name: string): (p: string)
    ensures p != [] && p[0] == '{'
  {
    "{{" + name + "}}"
  }

  /** `process.env[name] || ''`: the value when set and non-empty, else empty. */
  function EnvValue(env: map<string, string>, name: string): string {
    if name in env && env[name] != "" then env[name] else ""
  }

  /** `p` occurs in `s` starting at index `i`. */
  predicate OccursAt(s: string, p: string, i: int) {
    0 <= i && i + |p| <= |s| && s[i..i + |p|] == p
  }

  /** String.prototype.indexOf from a start position: the first occurrence
      at or after `from`, or None when there is none. */
  function IndexOfFrom(s: string, p: string, from: nat): (r: Option<nat>)
    ensures r.Some? ==> from <= r.value && OccursAt(s, p, r.value)
    ensures r.Some? ==> forall j :: from <= j < r.value ==> !OccursAt(s, p, j)
    ensures r.None? ==> forall j :: from <= j ==> !OccursAt(s, p, j)
    decreases |s| - from
  {
    if from + |p| > |s| then None
    else if s[from..from + |p|] == p then Some(from)
    else IndexOfFrom(s, p, from + 1)
  }

  /** The replacement text as String.prototype.replace expands it for a
      string pattern (GetSubstitution, section 22.1.3.19.1 of ECMA-262):
      "$$" is "$", "$&" the matched text, "$`" the text before the match,
      "$'" the text after it; with no capture groups, every other "$" stays. */
  function Substitution(replacement: string, matched: string, before: string, after: string): (r: string)
    ensures '$' !in replacement ==> r == replacement
  {
    if |replacement| >= 2 && replacement[0] == '$' && replacement[1] in "$&`'" then
      var expansion :=
        if replacement[1] == '$' then "$"
        else if replacement[1] == '&' then matched
        else if replacement[1] == '`' then before
        else after;
      expansion + Substitution(replacement[2..], matched, before, after)
    else if replacement == [] then []
    else [replacement[0]] + Substitution(replacement[1..], matched, before, after)
  }

  /** `s.replace(p, replacement)` with a string pattern. */
  function ReplaceFirst(s: string, p: string, replacement: string): string {
    match IndexOfFrom(s, p, 0)
    case None => s
    case Some(i) => s[..i] + Substitution(replacement, p, s[..i], s[i + |p|..]) + s[i + |p|..]
  }

  /** Without an occurrence of the pattern, the text is returned unchanged. */
  lemma ReplaceFirstAbsent(s: string, p: string, replacement: string)
    requires forall j :: !OccursAt(s, p, j)
    ensures ReplaceFirst(s, p, replacement) == s
  {
  }

  /** Otherwise the first occurrence, and only it, gives way to the expanded
      replacement; the text before and after it is kept as it is. */
  lemma ReplaceFirstAt(s: string, p: string, replacement: string, i: nat)
    requires OccursAt(s, p, i) && forall j :: 0 <= j < i ==> !OccursAt(s, p, j)
    ensures ReplaceFirst(s, p, replacement)
         == s[..i] + Substitution(replacement, p, s[..i], s[i + |p|..]) + s[i + |p|..]
  {
  }

  /** When no occurrence of the pattern starts in the text before it, the
      pattern placed there is the occurrence that is replaced. */
  lemma ReplaceAfterFreePrefix(a: string, p: string, b: string, replacement: string)
    requires forall j :: 0 <= j < |a| ==> !OccursAt(a + p + b, p, j)
    ensures ReplaceFirst(a + p + b, p, replacement) == a + Substitution(replacement, p, a, b) + b
  {
    var s := a + p + b;
    assert s[|a|..|a| + |p|] == p;
    assert s[..|a|] == a;
    assert s[|a| + |p|..] == b;
    ReplaceFirstAt(s, p, replacement, |a|);
  }

  /** An occurrence after the replaced one survives the replacement, at
      the same distance from the end of the text. */
  lemma ReplaceFirstKeepsLaterOccurrence(s: string, p: string, replacement: string, i: nat, j: nat)
    requires IndexOfFrom(s, p, 0) == Some(i)
    requires OccursAt(s, p, j) && j >= i + |p|
    ensures var r := ReplaceFirst(s, p, replacement); OccursAt(r, p, |r| - (|s| - j))
  {
    var x := ReplacedText(s, p, replacement, i);
    OccursAfterReplacement(s, p, i, j, x);
  }

  /** Where indexOf finds the pattern, the replacement leaves the text
      before and after that occurrence in place; the text put in between is
      returned. */
  lemma ReplacedText(s: string, p: string, replacement: string, i: nat) returns (x: string)
    requires IndexOfFrom(s, p, 0) == Some(i)
    ensures i + |p| <= |s| && ReplaceFirst(s, p, replacement) == s[..i] + x + s[i + |p|..]
  {
    assert OccursAt(s, p, i);
    x := Substitution(replacement, p, s[..i], s[i + |p|..]);
  }

  /** An occurrence at `j`, after the stretch `i .. i + |p|`, is found again
      once that stretch is exchanged for `x`. */
  lemma OccursAfterReplacement(s: string, p: string, i: nat, j: nat, x: string)
    requires i + |p| <= j && OccursAt(s, p, j)
    ensures OccursAt(s[..i] + x + s[i + |p|..], p, j - |p| + |x|)
  {
    var t := s[i + |p|..];
    assert t[j - i - |p|..j - i] == s[j..j + |p|];
    OccursAfter(s[..i], x, t, p, j - i - |p|);
  }

  /** An occurrence in the last part of a concatenation, seen from the start. */
  lemma OccursAfter(u: string, x: string, t: string, p: string, q: nat)
    requires OccursAt(t, p, q)
    ensures OccursAt(u + x + t, p, |u| + |x| + q)
  {
    var r := u + x + t;
    var m := |u| + |x| + q;
    forall k | m <= k < m + |p|
      ensures r[k] == t[k - |u| - |x|]
    {
    }
    assert r[m..m + |p|] == t[q..q + |p|];
  }

  /** The replace chain over `names`, each step acting on the previous
      step's output. */
  function InjectSteps(html: string, env: map<string, string>, names: seq<string>): string
    decreases names
  {
    if names == [] then html
    else InjectSteps(ReplaceFirst(html, Placeholder(names[0]), EnvValue(env, names[0])), env, names[1..])
  }

  /** The page that GET / serves. */
  function InjectConfig(html: string, env: map<string, string>): string {
    InjectSteps(html, env, ConfigNames)
  }

  /** The reply of GET /: the injected page, or a 500 when the page file
      cannot be read (`html` is None). */
  datatype PageReply = Page(body: string) | ReadFailure(status: nat, message: string)

  function ServePage(html: Option<string>, env: map<string, string>): (r: PageReply)
    ensures r.Page? <==> html.Some?
    ensures r.Page? ==> r.body == InjectConfig(html.value, env)
    ensures r.ReadFailure? ==> r.status == 500 && r.message == "Internal Server Error"
  {
    match html
    case None => ReadFailure(500, "Internal Server Error")
    case Some(page) => Page(InjectConfig(page, env))
  }

  /** Running a chain over `a` and then over `b` is running it over `a + b`. */
  lemma {:induction false} InjectStepsCompose(html: string, env: map<string, string>, a: seq<string>, b: seq<string>)
    ensures InjectSteps(html, env, a + b) == InjectSteps(InjectSteps(html, env, a), env, b)
    decreases a
  {
    if a == [] {
      assert a + b == b;
    } else {
      assert (a + b)[0] == a[0];
      assert (a + b)[1..] == a[1..] + b;
      InjectStepsCompose(ReplaceFirst(html, Placeholder(a[0]), EnvValue(env, a[0])), env, a[1..], b);
    }
  }

  /** A page made of text segments with fills between them. */
  function Layout(segments: seq<string>, fills: seq<string>): string
    requires |segments| == |fills| + 1
  {
    if fills == [] then segments[0] else segments[0] + fills[0] + Layout(segments[1..], fills[1..])
  }

  /** The placeholders of `names`, in order. */
  function Placeholders(names: seq<string>): (ps: seq<string>)
    ensures |ps| == |names|
    ensures forall k :: 0 <= k < |names| ==> ps[k] == Placeholder(names[k])
  {
    if names == [] then [] else [Placeholder(names[0])] + Placeholders(names[1..])
  }

  /** The values the chain writes for `names`, in order. */
  function EnvValues(env: map<string, string>, names: seq<string>): (vs: seq<string>)
    ensures |vs| == |names|
    ensures forall k :: 0 <= k < |names| ==> vs[k] == EnvValue(env, names[k])
  {
    if names == [] then [] else [EnvValue(env, names[0])] + EnvValues(env, names[1..])
  }

  /** Regrouping a concatenation of three texts. */
  lemma ConcatAssoc(x: string, y: string, z: string)
    ensures x + (y + z) == x + y + z
  {
  }

  /** No two neighbouring "{" in `s`. */
  predicate NoDoubleBrace(s: string) {
    forall j :: 0 <= j < |s| - 1 ==> !(s[j] == '{' && s[j + 1] == '{')
  }

  /** A variable name that does not itself start with "{", as every
      environment variable name does not. */
  predicate PlainName(name: string) {
    name != [] && name[0] != '{'
  }

  lemma NoDoubleBracePrefix(x: string, y: string)
    requires NoDoubleBrace(x + y)
    ensures NoDoubleBrace(x)
  {
    forall j | 0 <= j < |x| - 1
      ensures !(x[j] == '{' && x[j + 1] == '{')
    {
      assert (x + y)[j] == x[j] && (x + y)[j + 1] == x[j + 1];
    }
  }

  /** Text without "{{" cannot hold the start of a placeholder, not even one
      that runs on into the placeholder placed right after it. */
  lemma NoEarlierPlaceholder(a: string, name: string, b: string)
    requires NoDoubleBrace(a) && PlainName(name)
    ensures forall j :: 0 <= j < |a| ==> !OccursAt(a + Placeholder(name) + b, Placeholder(name), j)
  {
    var p := Placeholder(name);
    var s := a + p + b;
    assert p[0] == '{' && p[1] == '{' && p[2] == name[0];
    forall j | 0 <= j < |a|
      ensures !OccursAt(s, p, j)
    {
      var w := s[j..if j + |p| <= |s| then j + |p| else |s|];
      if j + |p| > |s| {
      } else if j + 1 < |a| {
        assert w[0] == a[j] && w[1] == a[j + 1];
      } else {
        assert w[2] == s[|a| + 1] == p[1];
      }
    }
  }

  /** One step of the chain when no occurrence of the placeholder starts
      before the one after `a`: the placeholder gives way to the variable's
      value. */
  lemma InjectOneStep(a: string, name: string, b: string, env: map<string, string>)
    requires forall j :: 0 <= j < |a| ==> !OccursAt(a + Placeholder(name) + b, Placeholder(name), j)
    requires '$' !in EnvValue(env, name)
    ensures ReplaceFirst(a + Placeholder(name) + b, Placeholder(name), EnvValue(env, name))
         == a + EnvValue(env, name) + b
  {
    ReplaceAfterFreePrefix(a, Placeholder(name), b, EnvValue(env, name));
  }

  /** A page that carries the placeholders once each, in chain order, gets
      each placeholder replaced by its variable's value (empty when unset),
      provided the page that results holds no "{{" and no value holds a "$". */
  lemma {:induction false} InjectLaidOut(done: string, segments: seq<string>, names: seq<string>, env: map<string, string>)
    requires |segments| == |names| + 1
    requires forall k :: 0 <= k < |names| ==> PlainName(names[k]) && '$' !in EnvValue(env, names[k])
    requires NoDoubleBrace(done + Layout(segments, EnvValues(env, names)))
    ensures InjectSteps(done + Layout(segments, Placeholders(names)), env, names)
         == done + Layout(segments, EnvValues(env, names))
    decreases names
  {
    if names == [] {
      assert done + Layout(segments, Placeholders(names)) == done + segments[0];
    } else {
      var v := EnvValue(env, names[0]);
      var p := Placeholder(names[0]);
      var a := done + segments[0];
      var b := Layout(segments[1..], Placeholders(names[1..]));
      var c := Layout(segments[1..], EnvValues(env, names[1..]));
      assert Placeholders(names)[1..] == Placeholders(names[1..]);
      assert Layout(segments, Placeholders(names)) == segments[0] + p + b;
      ConcatAssoc(done, segments[0] + p, b);
      ConcatAssoc(done, segments[0], p);
      assert EnvValues(env, names)[1..] == EnvValues(env, names[1..]);
      assert Layout(segments, EnvValues(env, names)) == segments[0] + v + c;
      ConcatAssoc(done, segments[0] + v, c);
      ConcatAssoc(done, segments[0], v);
      ConcatAssoc(a, v, c);
      NoDoubleBracePrefix(a, v + c);
      NoEarlierPlaceholder(a, names[0], b);
      InjectOneStep(a, names[0], b, env);
      assert InjectSteps(a + p + b, env, names) == InjectSteps(a + v + b, env, names[1..]);
      forall k | 0 <= k < |names[1..]|
        ensures PlainName(names[1..][k]) && '$' !in EnvValue(env, names[1..][k])
      {
        assert names[1..][k] == names[k + 1];
      }
      InjectLaidOut(a + v, segments[1..], names[1..], env);
    }
  }

  /** The served page for a page laid out with the six placeholders. */
  lemma InjectConfigLaidOut(segments: seq<string>, env: map<string, string>)
    requires |segments| == |ConfigNames| + 1
    requires forall k :: 0 <= k < |ConfigNames| ==> '$' !in EnvValue(env, ConfigNames[k])
    requires NoDoubleBrace(Layout(segments, EnvValues(env, ConfigNames)))
    ensures InjectConfig(Layout(segments, Placeholders(ConfigNames)), env)
         == Layout(segments, EnvValues(env, ConfigNames))
  {
    forall k | 0 <= k < |ConfigNames|
      ensures PlainName(ConfigNames[k])
    {
      assert ConfigNames[k][0] == 'F';
    }
    assert "" + Layout(segments, EnvValues(env, ConfigNames)) == Layout(segments, EnvValues(env, ConfigNames));
    InjectLaidOut("", segments, ConfigNames, env);
    assert "" + Layout(segments, Placeholders(ConfigNames)) == Layout(segments, Placeholders(ConfigNames));
  }

  /** A value of "$&" writes the matched placeholder back: the page keeps
      the placeholder instead of receiving the two characters. */
  lemma MatchPatternKeepsPlaceholder(a: string, name: string, b: string)
    requires NoDoubleBrace(a) && PlainName(name)
    ensures ReplaceFirst(a + Placeholder(name) + b, Placeholder(name), "$&") == a + Placeholder(name) + b
  {
    NoEarlierPlaceholder(a, name, b);
    ReplaceAfterFreePrefix(a, Placeholder(name), b, "$&");
    MatchPatternExpands(Placeholder(name), a, b);
  }

  /** The replacement "$&" expands to the matched text. */
  lemma MatchPatternExpands(matched: string, before: string, after: string)
    ensures Substitution("$&", matched, before, after) == matched
  {
    assert "$&"[2..] == [];
    assert Substitution("$&", matched, before, after) == matched + Substitution([], matched, before, after);
  }

  /** Each step reads the previous step's output: a value that itself holds
      the placeholder of a later variable is replaced again by that step. */
  lemma {:induction false} LaterStepRewritesEarlierValue(first: string, second: string, env: map<string, string>)
    requires EnvValue(env, first) == Placeholder(second)
    requires '$' !in second && '$' !in EnvValue(env, second)
    ensures InjectSteps(Placeholder(first), env, [first, second]) == EnvValue(env, second)
  {
    var p1, p2 := Placeholder(first), Placeholder(second);
    var v2 := EnvValue(env, second);
    assert '$' !in p2 by {
      assert p2 == "{{" + second + "}}";
    }
    InjectOneStep("", first, "", env);
    assert "" + p1 + "" == p1;
    var h1 := ReplaceFirst(p1, p1, p2);
    assert h1 == p2;
    InjectOneStep("", second, "", env);
    assert "" + p2 + "" == p2;
    assert ReplaceFirst(h1, p2, v2) == v2;
    assert InjectSteps(p1, env, [first, second]) == InjectSteps(h1, env, [second]);
  }

  datatype Status = Loaded | Missing

  /** The `firebase` object of the `/config-check` reply. */
  datatype FirebaseStatus = FirebaseStatus(
    apiKey: Status, authDomain: Status, projectId: Status,
    storageBucket: Status, messagingSenderId: Status, appId: Status)

  /** `process.env[name] ? 'loaded' : 'missing'` */
  function StatusOf(env: map<string, string>, name: string): (st: Status)
    ensures st == Loaded <==> EnvValue(env, name) != ""
  {
    if name in env && env[name] != "" then Loaded else Missing
  }

  /** GET /config-check, without its timestamp. */
  function ConfigCheck(env: map<string, string>): (r: FirebaseStatus)
    ensures forall k :: 0 <= k < |ConfigNames| ==> StatusList(r)[k] == StatusOf(env, ConfigNames[k])
  {
    FirebaseStatus(
      StatusOf(env, "FIREBASE_API_KEY"), StatusOf(env, "FIREBASE_AUTH_DOMAIN"),
      StatusOf(env, "FIREBASE_PROJECT_ID"), StatusOf(env, "FIREBASE_STORAGE_BUCKET"),
      StatusOf(env, "FIREBASE_MESSAGING_SENDER_ID"), StatusOf(env, "FIREBASE_APP_ID"))
  }

  /** The report in chain order. */
  function StatusList(r: FirebaseStatus): (ss: seq<Status>)
    ensures |ss| == |ConfigNames|
  {
    [r.apiKey, r.authDomain, r.projectId, r.storageBucket, r.messagingSenderId, r.appId]
  }

  /** `/config-check` reports a variable as loaded exactly when the page gets
      a non-empty value for its placeholder, and as missing exactly when the
      placeholder is replaced by the empty string. */
  lemma ConfigCheckMatchesInjection(env: map<string, string>, k: nat)
    requires k < |ConfigNames|
    ensures StatusList(ConfigCheck(env))[k] == Loaded <==> EnvValue(env, ConfigNames[k]) != ""
    ensures StatusList(ConfigCheck(env))[k] == Missing <==> EnvValue(env, ConfigNames[k]) == ""
  {
  }
}
