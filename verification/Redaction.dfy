/** Redaction of payloads before they are logged or shown. */
module Redaction {
  import opened Text

  /** A Go payload value: JSON, string maps, and the tool errors by value and by pointer.  `Opaque` is a
      value of any other type, such as []string, a named string or a struct; `content` is what it shows. */
  datatype Value =
    | Nil
    | Bool(b: bool)
    | Number(n: int)
    | Str(s: string)
    | List(items: seq<Value>)
    | NilObject
    | Object(fields: map<string, Value>)
    | StringMap(strings: map<string, string>)
    | ToolError(code: string, message: string, details: Value)
    | ToolErrorRef(code: string, message: string, details: Value)
    | NilToolErrorRef
    | Opaque(content: Value)

  const MARKER := "[redacted]"

  // ----- what is sensitive --------------------------------------------------

  /** `lower` is unicode.ToLower: on ASCII it is the usual mapping, elsewhere anything. */
  ghost predicate LowersAscii(lower: char -> char) {
    forall c: char :: c as int < 0x80 ==> lower(c) == if 'A' <= c <= 'Z' then (c as int + 32) as char else c
  }

  function Without(s: string, dropped: char): string {
    if s == "" then "" else (if s[0] == dropped then "" else [s[0]]) + Without(s[1..], dropped)
  }

  predicate SensitiveKey(key: string, lower: char -> char) {
    Without(Without(Lower(TrimSpace(key), lower), '_'), '-') in
      {"apikey", "authorization", "password", "passwd", "secret", "clientsecret", "accesstoken", "refreshtoken",
       "sessiontoken", "privatekey"}
  }

  predicate SensitiveText(value: string, lower: char -> char) {
    var trimmed := TrimSpace(value);
    var low := Lower(trimmed, lower);
    var bytes := Offset(trimmed, |trimmed|);
    || (bytes >= 12 && ("sk-" <= trimmed || "sk_" <= trimmed))
    || ("bearer " <= low && bytes > 7 + 8)
    || Contains(low, "-----begin private key-----")
  }

  /** The text spells the name, up to underscores and hyphens. */
  predicate Spells(text: string, name: string) {
    if text == "" then name == ""
    else if text[0] == '_' || text[0] == '-' then Spells(text[1..], name)
    else name != "" && text[0] == name[0] && Spells(text[1..], name[1..])
  }

  lemma {:induction false} SpellsIff(text: string, name: string)
    ensures Spells(text, name) <==> Without(Without(text, '_'), '-') == name
  {
    if text != "" {
      SpellsIff(text[1..], name);
      if text[0] == '_' {
        assert Without(text, '_') == Without(text[1..], '_');
      } else if text[0] == '-' {
        assert Without(text, '_') == ['-'] + Without(text[1..], '_');
        assert Without(Without(text, '_'), '-') == Without(Without(text[1..], '_'), '-');
      } else {
        var rest := Without(Without(text[1..], '_'), '-');
        assert ([text[0]] + Without(text[1..], '_'))[1..] == Without(text[1..], '_');
        assert Without(Without(text, '_'), '-') == [text[0]] + rest;
        if name != "" {
          SpellsIff(text[1..], name[1..]);
          assert name == [name[0]] + name[1..];
        }
      }
    }
  }

  /** A key is sensitive exactly when it spells one of ten names, white space around it, case, underscores and
      hyphens apart. */
  lemma SensitiveKeyIff(key: string, lower: char -> char)
    ensures var text := Lower(TrimSpace(key), lower);
            SensitiveKey(key, lower)
            <==> || Spells(text, "apikey") || Spells(text, "authorization") || Spells(text, "password")
                 || Spells(text, "passwd") || Spells(text, "secret") || Spells(text, "clientsecret")
                 || Spells(text, "accesstoken") || Spells(text, "refreshtoken") || Spells(text, "sessiontoken")
                 || Spells(text, "privatekey")
  {
    var text := Lower(TrimSpace(key), lower);
    SpellsIff(text, "apikey");
    SpellsIff(text, "authorization");
    SpellsIff(text, "password");
    SpellsIff(text, "passwd");
    SpellsIff(text, "secret");
    SpellsIff(text, "clientsecret");
    SpellsIff(text, "accesstoken");
    SpellsIff(text, "refreshtoken");
    SpellsIff(text, "sessiontoken");
    SpellsIff(text, "privatekey");
  }

  /** A text of ASCII is sensitive exactly when, trimmed, it has at least twelve characters and starts with a key
      prefix, or is a bearer token of more than eight characters, or holds the head of a private key. */
  lemma SensitiveTextIff(text: string, lower: char -> char)
    requires LowersAscii(lower) && forall c :: c in text ==> c as int < 0x80
    ensures var t := TrimSpace(text);
            SensitiveText(text, lower)
            <==> || (|t| >= 12 && t[0] == 's' && t[1] == 'k' && (t[2] == '-' || t[2] == '_'))
                 || (|t| > 15 && Lower(t[..7], lower) == "bearer ")
                 || Contains(Lower(t, lower), "-----begin private key-----")
  {
    var t := TrimSpace(text);
    TrimSpaceSplits(text);
    assert forall i :: 0 <= i < |t| ==> t[i] in text;
    OffsetOfAscii(t, |t|);
    if |t| >= 3 {
      assert "sk-" <= t <==> t[0] == 's' && t[1] == 'k' && t[2] == '-';
      assert "sk_" <= t <==> t[0] == 's' && t[1] == 'k' && t[2] == '_';
    }
    if |t| >= 7 {
      assert Lower(t, lower)[..7] == Lower(t[..7], lower);
      assert "bearer " <= Lower(t, lower) <==> Lower(t, lower)[..7] == "bearer ";
    }
  }

  lemma {:induction false} OffsetOfAscii(s: string, n: nat)
    requires n <= |s| && forall i :: 0 <= i < n ==> s[i] as int < 0x80
    ensures Offset(s, n) == n
  {
    if n > 0 { OffsetOfAscii(s, n - 1); }
  }

  /** The two tests redaction is built on. */
  datatype Detector = Detector(key: string -> bool, text: string -> bool)

  /** The program's tests. */
  function LogDetector(lower: char -> char): Detector {
    Detector(k => SensitiveKey(k, lower), t => SensitiveText(t, lower))
  }

  /** The marker does not look sensitive, as every guarantee below asks of the tests. */
  lemma MarkerIsNotSensitive(lower: char -> char)
    requires LowersAscii(lower)
    ensures !LogDetector(lower).text(MARKER)
  {
    assert TrimLeft(MARKER) == MARKER && TrimRight(MARKER) == MARKER;
    assert MARKER[0] == '[';
    assert Lower(MARKER, lower)[0] == lower('[') == '[';
    assert "bearer "[0] == 'b' && "sk-"[0] == 's' && "sk_"[0] == 's';
  }

  // ----- redaction ----------------------------------------------------------

  function SafeText(s: string, d: Detector): string {
    if d.text(s) then MARKER else s
  }

  function Safe(v: Value, d: Detector): Value
    decreases v
  {
    match v
    case Object(fields) =>
      Object(map k | k in fields :: if d.key(k) then Str(MARKER) else Safe(fields[k], d))
    case List(items) => List(seq(|items|, i requires 0 <= i < |items| => Safe(items[i], d)))
    case StringMap(strings) =>
      StringMap(map k | k in strings :: if d.key(k) then MARKER else SafeText(strings[k], d))
    case ToolErrorRef(code, message, details) => ToolError(code, message, Safe(details, d))
    case ToolError(code, message, details) => ToolError(code, message, Safe(details, d))
    case NilToolErrorRef => Nil
    case Str(s) => Str(SafeText(s, d))
    case _ => v
  }

  method SafePayload(payload: Value, d: Detector) returns (out: Value)
    requires payload.Object? || payload.NilObject?
    ensures out == Safe(payload, d)
    decreases payload, 0
  {
    if payload.NilObject? {
      return NilObject;
    }
    var fields: map<string, Value> := map[];
    var todo := payload.fields.Keys;
    while todo != {}
      invariant todo <= payload.fields.Keys && fields.Keys == payload.fields.Keys - todo
      invariant forall k :: k in fields ==> fields[k] == Safe(payload, d).fields[k]
      decreases todo
    {
      var key :| key in todo;
      if d.key(key) {
        fields := fields[key := Str(MARKER)];
      } else {
        var value := SafeValue(payload.fields[key], d);
        fields := fields[key := value];
      }
      todo := todo - {key};
    }
    assert fields == Safe(payload, d).fields;
    out := Object(fields);
  }

  method SafeValue(value: Value, d: Detector) returns (out: Value)
    ensures out == Safe(value, d)
    decreases value, 1
  {
    match value
    case Object(_) => out := SafePayload(value, d);
    case NilObject => out := SafePayload(value, d);
    case List(items) =>
      var safe: seq<Value> := [];
      for i := 0 to |items|
        invariant |safe| == i && forall j :: 0 <= j < i ==> safe[j] == Safe(items[j], d)
      {
        var item := SafeValue(items[i], d);
        safe := safe + [item];
      }
      assert safe == Safe(value, d).items;
      out := List(safe);
    case StringMap(strings) =>
      var safe: map<string, string> := map[];
      var todo := strings.Keys;
      while todo != {}
        invariant todo <= strings.Keys && safe.Keys == strings.Keys - todo
        invariant forall k :: k in safe ==> safe[k] == if d.key(k) then MARKER else SafeText(strings[k], d)
        decreases todo
      {
        var key :| key in todo;
        safe := safe[key := if d.key(key) || d.text(strings[key]) then MARKER else strings[key]];
        todo := todo - {key};
      }
      assert safe == Safe(value, d).strings;
      out := StringMap(safe);
    case ToolErrorRef(code, message, details) =>
      var safeDetails := SafeValue(details, d);
      out := ToolError(code, message, safeDetails);
    case ToolError(code, message, details) =>
      var safeDetails := SafeValue(details, d);
      out := ToolError(code, message, safeDetails);
    case NilToolErrorRef => out := Nil;
    case Str(s) => out := Str(if d.text(s) then MARKER else s);
    case _ => out := value;
  }

  // ----- what it guarantees -------------------------------------------------

  /** No sensitive key holds anything but the marker, and no text outside such keys looks sensitive. */
  predicate Clean(v: Value, d: Detector)
    decreases v
  {
    match v
    case Object(fields) =>
      forall k :: k in fields ==> if d.key(k) then fields[k] == Str(MARKER) else Clean(fields[k], d)
    case List(items) => forall i :: 0 <= i < |items| ==> Clean(items[i], d)
    case StringMap(strings) =>
      forall k :: k in strings ==> if d.key(k) then strings[k] == MARKER else !d.text(strings[k])
    case ToolErrorRef(code, message, details) => !d.text(code) && !d.text(message) && Clean(details, d)
    case ToolError(code, message, details) => !d.text(code) && !d.text(message) && Clean(details, d)
    case Str(s) => !d.text(s)
    case Opaque(content) => Clean(content, d)
    case _ => true
  }

  /** What redaction copies unread is clean: outside the sensitive keys, the codes and messages of tool
      errors and the values of other types. */
  predicate UnreadIsClean(v: Value, d: Detector)
    decreases v
  {
    match v
    case Object(fields) => forall k :: k in fields && !d.key(k) ==> UnreadIsClean(fields[k], d)
    case List(items) => forall i :: 0 <= i < |items| ==> UnreadIsClean(items[i], d)
    case ToolErrorRef(code, message, details) => !d.text(code) && !d.text(message) && UnreadIsClean(details, d)
    case ToolError(code, message, details) => !d.text(code) && !d.text(message) && UnreadIsClean(details, d)
    case Opaque(content) => Clean(content, d)
    case _ => true
  }

  /** A value JSON can decode to. */
  predicate JsonShaped(v: Value)
    decreases v
  {
    match v
    case Object(fields) => forall k :: k in fields ==> JsonShaped(fields[k])
    case List(items) => forall i :: 0 <= i < |items| ==> JsonShaped(items[i])
    case ToolError(_, _, _) => false
    case ToolErrorRef(_, _, _) => false
    case NilToolErrorRef => false
    case StringMap(_) => false
    case NilObject => false
    case Opaque(_) => false
    case _ => true
  }

  /** Redaction cleans a value exactly when what it copies unread is clean already. */
  lemma {:induction false} SafeIsCleanIff(v: Value, d: Detector)
    requires !d.text(MARKER)
    ensures Clean(Safe(v, d), d) <==> UnreadIsClean(v, d)
    decreases v
  {
    match v
    case Object(fields) =>
      forall k | k in fields ensures Clean(Safe(fields[k], d), d) <==> UnreadIsClean(fields[k], d) {
        SafeIsCleanIff(fields[k], d);
      }
    case List(items) =>
      forall i | 0 <= i < |items| ensures Clean(Safe(v, d).items[i], d) <==> UnreadIsClean(items[i], d) {
        SafeIsCleanIff(items[i], d);
      }
    case ToolErrorRef(_, _, details) => SafeIsCleanIff(details, d);
    case ToolError(_, _, details) => SafeIsCleanIff(details, d);
    case _ =>
  }

  /** A tool error carrying a key in its message is logged with the key. */
  lemma ErrorMessageIsLogged(lower: char -> char)
    ensures var error := ToolError("failed", "sk-123456789", NilObject);
            Safe(error, LogDetector(lower)) == ToolError("failed", "sk-123456789", Safe(NilObject, LogDetector(lower)))
            && !Clean(Safe(error, LogDetector(lower)), LogDetector(lower))
  {
    var key := "sk-123456789";
    Trimmed(key);
    OffsetAtLeast(key, |key|);
    assert SensitiveText(key, lower);
  }

  lemma {:induction false} OffsetAtLeast(s: string, n: nat)
    requires n <= |s|
    ensures Offset(s, n) >= n
  {
    if n > 0 { OffsetAtLeast(s, n - 1); }
  }

  /** A list of strings of a type of its own is shown as it is. */
  lemma OpaqueTextIsShown(key: string, text: string, d: Detector)
    requires !d.key(key) && d.text(text)
    ensures var payload := Object(map[key := Opaque(List([Str(text)]))]);
            Safe(payload, d) == payload && !Clean(payload, d)
  {
    var ids := List([Str(text)]);
    var payload := Object(map[key := Opaque(ids)]);
    assert ids.items[0] == Str(text) && !Clean(ids.items[0], d);
    assert !Clean(payload.fields[key], d);
    assert Safe(payload, d).fields == payload.fields;
  }

  /** With the program's own tests: a share policy named like a key is shown in the trace of a search. */
  lemma PolicyIdIsShown(lower: char -> char)
    requires LowersAscii(lower)
    ensures var payload := Object(map["share_policy_ids" := Opaque(List([Str("sk-123456789")]))]);
            Safe(payload, LogDetector(lower)) == payload && !Clean(payload, LogDetector(lower))
  {
    Trimmed("sk-123456789");
    OffsetAtLeast("sk-123456789", 12);
    Trimmed("share_policy_ids");
    var low := Lower("share_policy_ids", lower);
    WithoutTwo(low, '_');
    WithoutTwo(Without(low, '_'), '-');
    assert Without(Without(low, '_'), '-')[1] == 'h';
    OpaqueTextIsShown("share_policy_ids", "sk-123456789", LogDetector(lower));
  }

  lemma WithoutTwo(s: string, dropped: char)
    requires |s| >= 2 && s[0] != dropped && s[1] != dropped
    ensures Without(s, dropped) == [s[0], s[1]] + Without(s[2..], dropped)
  {
    assert s[1..][1..] == s[2..];
  }

  /** What is taken out reads "[redacted]": everything under a sensitive key, and sensitive texts. */
  lemma SecretsReadRedacted(v: Value, k: string, d: Detector)
    requires v.Object? && k in v.fields
    requires d.key(k) || (v.fields[k].Str? && d.text(v.fields[k].s))
    ensures Safe(v, d).Object? && k in Safe(v, d).fields && Safe(v, d).fields[k] == Str("[redacted]")
  {
  }

  /** On JSON payloads redaction always cleans, and changes nothing that is clean already. */
  lemma {:induction false} SafeJson(v: Value, d: Detector)
    requires !d.text(MARKER) && JsonShaped(v)
    ensures Clean(Safe(v, d), d)
    ensures Safe(v, d) == v <==> Clean(v, d)
    decreases v
  {
    match v
    case Object(fields) =>
      forall k | k in fields
        ensures Clean(Safe(fields[k], d), d) && (Safe(fields[k], d) == fields[k] <==> Clean(fields[k], d))
      {
        SafeJson(fields[k], d);
      }
      var safe := Safe(v, d).fields;
      assert safe == fields <==> forall k :: k in fields ==> safe[k] == fields[k];
    case List(items) =>
      forall i | 0 <= i < |items|
        ensures Clean(Safe(items[i], d), d) && (Safe(items[i], d) == items[i] <==> Clean(items[i], d))
      {
        SafeJson(items[i], d);
      }
      var safe := Safe(v, d).items;
      assert safe == items <==> forall i :: 0 <= i < |items| ==> safe[i] == items[i];
    case _ =>
  }

  /** Redacting twice is redacting once, for every value. */
  lemma {:induction false} SafeIdempotent(v: Value, d: Detector)
    requires !d.text(MARKER)
    ensures Safe(Safe(v, d), d) == Safe(v, d)
    decreases v
  {
    var once := Safe(v, d);
    match v
    case Object(fields) =>
      forall k | k in fields ensures Safe(Safe(fields[k], d), d) == Safe(fields[k], d) {
        SafeIdempotent(fields[k], d);
      }
      assert Safe(once, d).fields == once.fields;
    case List(items) =>
      forall i | 0 <= i < |items| ensures Safe(Safe(items[i], d), d) == Safe(items[i], d) {
        SafeIdempotent(items[i], d);
      }
      assert Safe(once, d).items == once.items;
    case StringMap(strings) => assert Safe(once, d).strings == once.strings;
    case ToolErrorRef(_, _, details) => SafeIdempotent(details, d);
    case ToolError(_, _, details) => SafeIdempotent(details, d);
    case _ =>
  }

  /** `w` has the keys and lengths of `v` wherever no value was replaced, and every replaced value was
      under a sensitive key or a sensitive text. */
  predicate OnlyReplaces(v: Value, w: Value, d: Detector)
    decreases v
  {
    match v
    case Object(fields) =>
      w.Object? && w.fields.Keys == fields.Keys &&
      forall k :: k in fields ==>
        if d.key(k) then w.fields[k] == Str(MARKER) else OnlyReplaces(fields[k], w.fields[k], d)
    case List(items) =>
      w.List? && |w.items| == |items| && forall i :: 0 <= i < |items| ==> OnlyReplaces(items[i], w.items[i], d)
    case StringMap(strings) =>
      w.StringMap? && w.strings.Keys == strings.Keys &&
      forall k :: k in strings ==>
        (w.strings[k] == strings[k] || (w.strings[k] == MARKER && (d.key(k) || d.text(strings[k]))))
    case ToolErrorRef(code, message, details) =>
      w.ToolError? && w.code == code && w.message == message && OnlyReplaces(details, w.details, d)
    case ToolError(code, message, details) =>
      w.ToolError? && w.code == code && w.message == message && OnlyReplaces(details, w.details, d)
    case NilToolErrorRef => w == Nil
    case Str(s) => w == v || (w == Str(MARKER) && d.text(s))
    case _ => w == v
  }

  lemma {:induction false} SafeOnlyReplaces(v: Value, d: Detector)
    ensures OnlyReplaces(v, Safe(v, d), d)
    decreases v
  {
    match v
    case Object(fields) =>
      forall k | k in fields ensures OnlyReplaces(fields[k], Safe(fields[k], d), d) {
        SafeOnlyReplaces(fields[k], d);
      }
    case List(items) =>
      forall i | 0 <= i < |items| ensures OnlyReplaces(items[i], Safe(v, d).items[i], d) {
        SafeOnlyReplaces(items[i], d);
      }
    case ToolErrorRef(_, _, details) => SafeOnlyReplaces(details, d);
    case ToolError(_, _, details) => SafeOnlyReplaces(details, d);
    case _ =>
  }

  /** With the program's own tests: every JSON payload is logged clean, redacting the logged form again
      changes nothing, and nothing but sensitive values was replaced. */
  lemma LoggedPayloadsAreClean(payload: Value, lower: char -> char)
    requires LowersAscii(lower) && JsonShaped(payload)
    ensures var d := LogDetector(lower);
            && Clean(Safe(payload, d), d)
            && Safe(Safe(payload, d), d) == Safe(payload, d)
            && OnlyReplaces(payload, Safe(payload, d), d)
  {
    MarkerIsNotSensitive(lower);
    SafeJson(payload, LogDetector(lower));
    SafeIdempotent(payload, LogDetector(lower));
    SafeOnlyReplaces(payload, LogDetector(lower));
  }

  // ----- in memory ----------------------------------------------------------

  /** A value stored in a map in memory: a map by reference, anything else by value. */
  datatype Node = Leaf(value: Value) | Child(obj: Payload)

  /** A map[string]any in memory.  Maps may be shared, but not contain themselves. */
  class Payload {
    var fields: map<string, Node>
    ghost var repr: set<Payload>

    constructor (fields: map<string, Node>, ghost view: map<string, Value>, ghost below: set<Payload>)
      requires fields.Keys == view.Keys && AllStand(fields, view, below)
      ensures Valid() && View() == Object(view) && repr == {this} + below
    {
      this.fields := fields;
      repr := {this} + below;
      new;
      assert AllStand(fields, view, below);
      assert View().fields == view;
    }

    ghost predicate Valid()
      reads this, repr
      decreases repr
    {
      && this in repr
      && forall k :: k in fields && fields[k].Child? ==>
           var c := fields[k].obj;
           c in repr && c.repr <= repr - {this} && c.Valid()
    }

    ghost function View(): Value
      requires Valid()
      reads this, repr
      decreases repr
    {
      Object(map k | k in fields :: if fields[k].Child? then fields[k].obj.View() else fields[k].value)
    }
  }

  /** The node stands for the value, and its maps are among `maps`. */
  ghost predicate Stands(n: Node, v: Value, maps: set<Payload>)
    reads maps
  {
    if n.Child? then n.obj in maps && n.obj.repr <= maps && n.obj.Valid() && n.obj.View() == v else n.value == v
  }

  /** Every node stands for the value of its key. */
  ghost predicate AllStand(fields: map<string, Node>, view: map<string, Value>, maps: set<Payload>)
    reads maps
  {
    forall k :: k in fields ==> k in view && Stands(fields[k], view[k], maps)
  }

  lemma AddNode(fields: map<string, Node>, view: map<string, Value>, maps: set<Payload>, key: string, node: Node,
                more: set<Payload>)
    requires AllStand(fields, view, maps) && key in view && Stands(node, view[key], more)
    ensures AllStand(fields[key := node], view, maps + more)
  {
  }

  /** The program's safePayload on maps in memory: it builds new maps and writes to none it was given. */
  method SafeInMemory(p: Payload, d: Detector) returns (out: Payload)
    requires p.Valid()
    ensures fresh(out.repr) && out.Valid() && out.View() == Safe(old(p.View()), d)
    ensures p.Valid() && p.View() == old(p.View()) && unchanged(p.repr)
    decreases p.repr, 2
  {
    ghost var safe := Safe(p.View(), d).fields;
    var fields, below := SafeMembers(p, d, safe);
    out := new Payload(fields, safe, below);
  }

  /** The loop over the keys, in any order. */
  method SafeMembers(p: Payload, d: Detector, ghost safe: map<string, Value>)
    returns (fields: map<string, Node>, ghost below: set<Payload>)
    requires p.Valid() && Safe(p.View(), d) == Object(safe)
    ensures fresh(below) && fields.Keys == safe.Keys && AllStand(fields, safe, below)
    decreases p.repr, 1
  {
    fields, below := map[], {};
    var todo := p.fields.Keys;
    while todo != {}
      invariant todo <= p.fields.Keys && fields.Keys == p.fields.Keys - todo
      invariant fresh(below) && AllStand(fields, safe, below)
      decreases todo
    {
      var key :| key in todo;
      var node;
      ghost var more;
      node, more := SafeNode(p, key, d, safe);
      AddNode(fields, safe, below, key, node, more);
      fields, below := fields[key := node], below + more;
      todo := todo - {key};
    }
  }

  /** One member: its node and the maps made for it. */
  method SafeNode(p: Payload, key: string, d: Detector, ghost safe: map<string, Value>)
    returns (node: Node, ghost below: set<Payload>)
    requires p.Valid() && key in p.fields && Safe(p.View(), d) == Object(safe)
    ensures key in safe && Stands(node, safe[key], below) && fresh(below)
    decreases p.repr, 0
  {
    below := {};
    if d.key(key) {
      node := Leaf(Str(MARKER));
    } else if p.fields[key].Child? {
      var child := SafeInMemory(p.fields[key].obj, d);
      node, below := Child(child), child.repr;
    } else {
      var value := SafeValue(p.fields[key].value, d);
      node := Leaf(value);
    }
  }
}
