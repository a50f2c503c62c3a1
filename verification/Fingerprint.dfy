/** The bytes the idempotency fingerprint hashes, and which requests share them. */
module Fingerprint {

  const NUL: char := '\0'

  /** The middleware hashes POST requests only; every other method passes it by. */
  const POST: string := "POST"

  /** A registered route: it starts with a slash and has no NUL. */
  predicate IsRoute(path: string) { path != "" && path[0] == '/' && NUL !in path }

  /** Method and route, as hashed. */
  function Target(route: string): string { POST + [NUL] + route }

  /** Method and route with the NUL before them. */
  function Mark(route: string): string { [NUL] + Target(route) }

  /** The hashed bytes: subject NUL method NUL route NUL body. */
  function Preimage(subject: string, route: string, body: string): string {
    subject + Mark(route) + [NUL] + body
  }

  /** The bytes in full. */
  lemma HashedBytes(subject: string, route: string, body: string)
    ensures Preimage(subject, route, body) == subject + "\0POST\0" + route + "\0" + body
  {
    assert [NUL] + POST + [NUL] == "\0POST\0";
    assert [NUL] == "\0";
  }

  lemma {:induction false} CutIsUnique(a: string, x: string, b: string, y: string)
    requires NUL !in a && NUL !in b && a + [NUL] + x == b + [NUL] + y
    ensures a == b && x == y
  {
    var s, t := a + [NUL] + x, b + [NUL] + y;
    if a == "" || b == "" {
      assert s[0] == t[0];
      assert a == b == "";
      assert x == s[1..] && y == t[1..];
    } else {
      assert s[0] == t[0];
      assert s[1..] == a[1..] + [NUL] + x && t[1..] == b[1..] + [NUL] + y;
      CutIsUnique(a[1..], x, b[1..], y);
      assert a == [a[0]] + a[1..] && b == [b[0]] + b[1..];
    }
  }

  /** Requests of one subject hash the same bytes only if they have the same route and body. */
  lemma SameSubjectIsInjective(s: string, p1: string, b1: string, p2: string, b2: string)
    requires IsRoute(p1) && IsRoute(p2) && Preimage(s, p1, b1) == Preimage(s, p2, b2)
    ensures p1 == p2 && b1 == b2
  {
    var n := |s| + 6;
    assert Preimage(s, p1, b1)[n..] == p1 + [NUL] + b1;
    assert Preimage(s, p2, b2)[n..] == p2 + [NUL] + b2;
    CutIsUnique(p1, b1, p2, b2);
  }

  /** So do requests of subjects without a NUL. */
  lemma PreimageIsInjective(s1: string, p1: string, b1: string, s2: string, p2: string, b2: string)
    requires NUL !in s1 && NUL !in s2 && IsRoute(p1) && IsRoute(p2)
    requires Preimage(s1, p1, b1) == Preimage(s2, p2, b2)
    ensures s1 == s2 && p1 == p2 && b1 == b2
  {
    assert Preimage(s1, p1, b1) == s1 + [NUL] + (POST + [NUL] + p1 + [NUL] + b1);
    assert Preimage(s2, p2, b2) == s2 + [NUL] + (POST + [NUL] + p2 + [NUL] + b2);
    CutIsUnique(s1, POST + [NUL] + p1 + [NUL] + b1, s2, POST + [NUL] + p2 + [NUL] + b2);
    SameSubjectIsInjective(s1, p1, b1, p2, b2);
  }

  // ---- collisions ---------------------------------------------------------------------------

  predicate EndsWith(t: string, u: string) { |u| <= |t| && t[|t| - |u|..] == u }

  predicate Contains(t: string, u: string) { exists i :: 0 <= i <= |t| && u <= t[i..] }

  /** Another request to one of the routes hashes the bytes of this one. */
  ghost predicate Collides(routes: set<string>, subject: string, route: string, body: string) {
    exists s, p, b :: p in routes && Preimage(s, p, b) == Preimage(subject, route, body)
      && (s, p, b) != (subject, route, body)
  }

  /** Subject or body spells out the mark of a route, where it can be taken for the real one. */
  predicate SpellsOut(route: string, subject: string, body: string) {
    || Target(route) + [NUL] <= body
    || Contains(body, Mark(route) + [NUL])
    || EndsWith(subject, Mark(route))
    || Contains(subject, Mark(route) + [NUL])
  }

  /** A request can share its fingerprint with another one exactly when its subject or body spells out a route's mark. */
  lemma CollidesExactly(routes: set<string>, subject: string, route: string, body: string)
    requires route in routes && forall p :: p in routes ==> IsRoute(p)
    ensures Collides(routes, subject, route, body) <==> exists p :: p in routes && SpellsOut(p, subject, body)
  {
    hide Preimage, SpellsOut, Mark;
    if s, p, b :| p in routes && Preimage(s, p, b) == Preimage(subject, route, body) && (s, p, b) != (subject, route, body) {
      if |s| == |subject| {
        SameLength(s, p, b, subject, route, body);
      } else if |subject| < |s| {
        LaterMark(subject, route, body, s, p, b);
      } else {
        LaterMark(s, p, b, subject, route, body);
      }
    }
    if p :| p in routes && SpellsOut(p, subject, body) {
      SpellingCollides(routes, subject, route, body, p);
    }
  }

  lemma SameLength(s: string, p: string, b: string, subject: string, route: string, body: string)
    requires IsRoute(p) && IsRoute(route) && |s| == |subject| && Preimage(s, p, b) == Preimage(subject, route, body)
    ensures (s, p, b) == (subject, route, body)
  {
    assert s == Preimage(s, p, b)[..|s|] == subject;
    SameSubjectIsInjective(s, p, b, route, body);
  }

  /** Where the two readings of the same bytes put the mark, the later mark lies behind the whole earlier one. */
  lemma MarksDoNotOverlap(s: string, p: string, b: string, t: string, q: string, c: string)
    requires IsRoute(p) && IsRoute(q) && |s| < |t| && Preimage(s, p, b) == Preimage(t, q, c)
    ensures |s| + |Mark(p)| <= |t|
  {
    var all := Preimage(s, p, b);
    assert all[|t|] == NUL && all[|t| + 1] == 'P';
    assert all[|s| + 6] == '/';
  }

  /** The earlier reading's body and the later reading's subject both spell out the other's mark. */
  lemma LaterMark(s: string, p: string, b: string, t: string, q: string, c: string)
    requires IsRoute(p) && IsRoute(q) && |s| < |t| && Preimage(s, p, b) == Preimage(t, q, c)
    ensures SpellsOut(q, s, b) && SpellsOut(p, t, c)
  {
    MarksDoNotOverlap(s, p, b, t, q, c);
    var all, n := Preimage(s, p, b), |s| + |Mark(p)|;
    if |t| == n {
      TouchingMarks(s, p, b, t, q, c);
    } else {
      ApartMarks(s, p, b, t, q, c);
    }
  }

  lemma TouchingMarks(s: string, p: string, b: string, t: string, q: string, c: string)
    requires |t| == |s| + |Mark(p)| && Preimage(s, p, b) == Preimage(t, q, c)
    ensures EndsWith(t, Mark(p)) && Target(q) + [NUL] <= b
  {
    var all := Preimage(s, p, b);
    assert t == all[..|t|] == s + Mark(p);
    assert all[|t| + 1..] == b;
    assert all[|t| + 1..] == Target(q) + [NUL] + c;
  }

  lemma ApartMarks(s: string, p: string, b: string, t: string, q: string, c: string)
    requires |t| > |s| + |Mark(p)| && Preimage(s, p, b) == Preimage(t, q, c)
    ensures Contains(t, Mark(p) + [NUL]) && Contains(b, Mark(q) + [NUL])
  {
    var all, m := Preimage(s, p, b), |s| + |Mark(p)| + 1;
    var x := t[m..];
    assert t == all[..|t|];
    assert t[|s|..] == Mark(p) + [NUL] + x;
    assert b == all[m..] == x + (Mark(q) + [NUL] + c);
    assert b[|x|..] == Mark(q) + [NUL] + c;
  }

  /** Two readings of the same bytes, with touching marks and with text between the marks. */
  lemma TwoReadings(s: string, r: string, x: string, p: string, y: string)
    ensures Preimage(s + Mark(r), p, y) == Preimage(s, r, Target(p) + [NUL] + y)
    ensures Preimage(s + Mark(r) + [NUL] + x, p, y) == Preimage(s, r, x + Mark(p) + [NUL] + y)
  {
  }

  lemma AnotherReading(routes: set<string>, s: string, p: string, b: string, subject: string, route: string, body: string)
    requires p in routes && Preimage(s, p, b) == Preimage(subject, route, body) && |s| != |subject|
    ensures Collides(routes, subject, route, body)
  {
  }

  lemma BodyStarts(routes: set<string>, subject: string, route: string, body: string, p: string)
    requires p in routes && Target(p) + [NUL] <= body
    ensures Collides(routes, subject, route, body)
  {
    var rest := body[|Target(p)| + 1..];
    assert body == Target(p) + [NUL] + rest;
    TwoReadings(subject, route, "", p, rest);
    AnotherReading(routes, subject + Mark(route), p, rest, subject, route, body);
  }

  lemma BodyContains(routes: set<string>, subject: string, route: string, body: string, p: string, i: nat)
    requires p in routes && i <= |body| && Mark(p) + [NUL] <= body[i..]
    ensures Collides(routes, subject, route, body)
  {
    hide Mark, Preimage, Collides;
    var rest := body[i + |Mark(p)| + 1..];
    assert body == body[..i] + Mark(p) + [NUL] + rest;
    TwoReadings(subject, route, body[..i], p, rest);
    AnotherReading(routes, subject + Mark(route) + [NUL] + body[..i], p, rest, subject, route, body);
  }

  lemma SubjectEnds(routes: set<string>, subject: string, route: string, body: string, p: string)
    requires p in routes && EndsWith(subject, Mark(p))
    ensures Collides(routes, subject, route, body)
  {
    var a := subject[..|subject| - |Mark(p)|];
    assert subject == a + Mark(p);
    TwoReadings(a, p, "", route, body);
    AnotherReading(routes, a, p, Target(route) + [NUL] + body, subject, route, body);
  }

  lemma SubjectContains(routes: set<string>, subject: string, route: string, body: string, p: string, i: nat)
    requires p in routes && i <= |subject| && Mark(p) + [NUL] <= subject[i..]
    ensures Collides(routes, subject, route, body)
  {
    hide Mark, Preimage, Collides;
    var a, x := subject[..i], subject[i + |Mark(p)| + 1..];
    assert subject == a + Mark(p) + [NUL] + x;
    TwoReadings(a, p, x, route, body);
    AnotherReading(routes, a, p, x + Mark(route) + [NUL] + body, subject, route, body);
  }

  /** Each spelling gives another request with the same bytes. */
  lemma SpellingCollides(routes: set<string>, subject: string, route: string, body: string, p: string)
    requires p in routes && SpellsOut(p, subject, body)
    ensures Collides(routes, subject, route, body)
  {
    hide Mark, Preimage, Collides, EndsWith;
    var m := Mark(p) + [NUL];
    if Target(p) + [NUL] <= body {
      BodyStarts(routes, subject, route, body, p);
    } else if EndsWith(subject, Mark(p)) {
      SubjectEnds(routes, subject, route, body, p);
    } else if i :| 0 <= i <= |body| && m <= body[i..] {
      BodyContains(routes, subject, route, body, p, i);
    } else {
      var i :| 0 <= i <= |subject| && m <= subject[i..];
      SubjectContains(routes, subject, route, body, p, i);
    }
  }

  /** Two requests to the record route that share all hashed bytes: the first one's subject ends with the mark. */
  lemma SubjectsCollide(body: string)
    ensures var route := "/api/v1/usage/record";
      && IsRoute(route)
      && Preimage("u" + Mark(route), route, body) == Preimage("u", route, Target(route) + [NUL] + body)
      && "u" + Mark(route) != "u"
  {
    var route := "/api/v1/usage/record";
    assert "u" + Mark(route) + Mark(route) + [NUL] + body == "u" + Mark(route) + [NUL] + (Target(route) + [NUL] + body);
  }
}
