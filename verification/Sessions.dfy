/** Session rows as Ducklord lists them (internal/ducklord, cmd/ducklord/main.go). */
module Sessions {
  import opened Basics
  import opened Ordering

  /** The host-alias-independent identity of a session. */
  datatype Identity = Identity(instance: string, session: string)

  /** `identity` is None when the ids of the row do not parse. */
  datatype Session = Session(
    client: string, group: string, name: string, instance: string, id: string,
    identity: Option<Identity>, shell: bool, stopped: bool, unread: bool, activity: map<string, nat>)

  function Key(s: Session): string {
    if s.instance != "" && s.id != "" then s.client + "/" + s.instance + "/" + s.id
    else s.group + "/" + s.client + "/" + s.name
  }

  /** The order of sortRemoteSessions. */
  predicate RowLess(a: Session, b: Session) {
    if a.group != b.group then StringLess(a.group, b.group)
    else if a.client != b.client then StringLess(a.client, b.client)
    else if a.name != b.name then StringLess(a.name, b.name)
    else StringLess(Key(a), Key(b))
  }

  lemma {:induction false} FirstSlash(a: string, b: string, x: string, y: string)
    requires '/' !in a && '/' !in b && a + "/" + x == b + "/" + y
    ensures a == b && x == y
  {
    var left, right := a + "/" + x, b + "/" + y;
    assert left[0] == (if a == "" then '/' else a[0]) && right[0] == (if b == "" then '/' else b[0]);
    if a == "" || b == "" {
      assert a == "" && b == "";
      assert left[1..] == x && right[1..] == y;
    } else {
      assert left[1..] == a[1..] + "/" + x && right[1..] == b[1..] + "/" + y;
      FirstSlash(a[1..], b[1..], x, y);
      assert a == [a[0]] + a[1..] && b == [b[0]] + b[1..];
    }
  }

  /** The key tells the sessions of a host apart. */
  lemma {:induction false} KeyTellsApart(a: Session, b: Session)
    requires a.client == b.client && Key(a) == Key(b)
    requires a.instance != "" && a.id != "" && b.instance != "" && b.id != ""
    requires '/' !in a.instance && '/' !in b.instance
    ensures a.instance == b.instance && a.id == b.id
  {
    var n := |a.client| + 1;
    assert Key(a)[n..] == a.instance + "/" + a.id && Key(b)[n..] == b.instance + "/" + b.id;
    FirstSlash(a.instance, b.instance, a.id, b.id);
  }
}
