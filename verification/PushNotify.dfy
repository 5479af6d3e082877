/** When a session row change calls for a phone notification (edge/src/push-notify.ts). */
module PushNotify {
  import opened Wrappers
  import opened RegistryCore

  /** Left untouched for so long, a working or awaiting session counts as gone. */
  const SESSION_STALE_MS: real := 45000.0

  datatype Indicator = NoIndicator | Working | Awaiting | Errored

  datatype Category = Done | Input | Failed

  datatype Note = Note(category: Category, title: string)

  function NumOf(v: Option<Value>): Option<real> {
    if v.Some? && v.value.Num? then Some(v.value.n) else None
  }

  function StrOf(v: Option<Value>): Option<string> {
    if v.Some? && v.value.Str? then Some(v.value.s) else None
  }

  /** A missing or non-numeric `updatedAt` counts as the epoch. */
  function UpdatedAt(fields: map<string, Value>): real {
    var n := NumOf(Lookup(fields, "updatedAt"));
    if n.Some? then n.value else 0.0
  }

  predicate Stale(fields: map<string, Value>, now: real) {
    now - UpdatedAt(fields) > SESSION_STALE_MS
  }

  function IndicatorOf(fields: map<string, Value>, now: real): Indicator {
    var status := StrOf(Lookup(fields, "status"));
    if status == Some("errored") then Errored
    else if status == Some("working") then (if Stale(fields, now) then NoIndicator else Working)
    else if status == Some("awaitingInput") then (if Stale(fields, now) then NoIndicator else Awaiting)
    else NoIndicator
  }

  function NotificationFor(before: Option<Row>, after: Row, now: real): Option<Category> {
    if before == None || before.value.deleted || after.deleted then None
    else
      var prev := IndicatorOf(before.value.fields, now);
      var next := IndicatorOf(after.fields, now);
      if next == Errored && prev != Errored then Some(Failed)
      else if next == Awaiting && prev != Awaiting then Some(Input)
      else
        var turn := StrOf(Lookup(after.fields, "lastCompletedTurn"));
        if !Stale(after.fields, now) && turn.Some? && turn != StrOf(Lookup(before.value.fields, "lastCompletedTurn"))
        then Some(Done)
        else None
  }

  predicate IsSpace(c: char) {
    c in {' ', '\t', '\n', '\r', '\U{B}', '\U{C}', '\U{A0}', '\U{1680}', '\U{2028}', '\U{2029}', '\U{202F}',
          '\U{205F}', '\U{3000}', '\U{FEFF}'} || '\U{2000}' <= c <= '\U{200A}'
  }

  function Trim(s: string): string
    decreases |s|
  {
    if s == "" then s
    else if IsSpace(s[0]) then Trim(s[1..])
    else if IsSpace(s[|s| - 1]) then Trim(s[..|s| - 1])
    else s
  }

  /** The title a notification shows; `None` for deleted, side and archived chats. */
  function ChatForNotification(chat: Option<Row>): Option<string> {
    var fields := if chat.Some? then chat.value.fields else map[];
    if chat.Some? && chat.value.deleted then None
    else if StrOf(Lookup(fields, "parentChatId")).Some? then None
    else if Lookup(fields, "archived") == Some(Bool(true)) then None
    else
      var title := StrOf(Lookup(fields, "title"));
      if title.Some? && Trim(title.value) != "" then Some(Trim(title.value)) else Some("New session")
  }

  // ── what a change calls for, read off the fields ──────────────────────────

  ghost predicate Reads(fields: map<string, Value>, field: string, text: string) {
    field in fields && fields[field] == Str(text)
  }

  /** Updated within the last 45 seconds; never updated is at the epoch. */
  ghost predicate Recent(fields: map<string, Value>, now: real) {
    if "updatedAt" in fields && fields["updatedAt"].Num? then now <= fields["updatedAt"].n + 45000.0 else now <= 45000.0
  }

  ghost predicate Asks(fields: map<string, Value>, now: real) {
    Reads(fields, "status", "awaitingInput") && Recent(fields, now)
  }

  /** The change from one live row to another that a category stands for: a session fails, asks, or
  has completed another turn lately and does neither anew. */
  ghost predicate Calls(was: Row, next: Row, category: Category, now: real) {
    var failed := Reads(next.fields, "status", "errored") && !Reads(was.fields, "status", "errored");
    var asked := Asks(next.fields, now) && !Asks(was.fields, now);
    && !was.deleted && !next.deleted
    && match category
       case Failed => failed
       case Input => asked
       case Done =>
         && !failed && !asked && Recent(next.fields, now)
         && exists turn :: Reads(next.fields, "lastCompletedTurn", turn) && !Reads(was.fields, "lastCompletedTurn", turn)
  }

  lemma {:induction false} CategoryIff(was: Row, next: Row, category: Category, now: real)
    ensures NotificationFor(Some(was), next, now) == Some(category) <==> Calls(was, next, category, now)
  {
    assert forall f: map<string, Value>, k, t :: StrOf(Lookup(f, k)) == Some(t) <==> Reads(f, k, t);
    var turn := StrOf(Lookup(next.fields, "lastCompletedTurn"));
    if turn.Some? {
      assert Reads(next.fields, "lastCompletedTurn", turn.value);
    }
    assert !(Reads(next.fields, "status", "errored") && Asks(next.fields, now));
  }

  ghost predicate Blank(c: char) {
    var n := c as int;
    || 9 <= n <= 13 || n == 32 || n == 0xA0 || n == 0x1680 || 0x2000 <= n <= 0x200A
    || n == 0x2028 || n == 0x2029 || n == 0x202F || n == 0x205F || n == 0x3000 || n == 0xFEFF
  }

  /** No notification is shown for a chat that is deleted, archived or beside another. */
  ghost predicate Silent(chat: Row) {
    || chat.deleted
    || (exists parent :: Reads(chat.fields, "parentChatId", parent))
    || ("archived" in chat.fields && chat.fields["archived"] == Bool(true))
  }

  /** `title` is `text` without the blanks around it. */
  ghost predicate Stripped(text: string, title: string) {
    && title != "" && !Blank(title[0]) && !Blank(title[|title| - 1])
    && exists lead, trail :: text == lead + title + trail && AllBlank(lead) && AllBlank(trail)
  }

  ghost predicate AllBlank(text: string) {
    forall i :: 0 <= i < |text| ==> Blank(text[i])
  }

  /** The chat's title, without the blanks around it; a default for a chat that has none. */
  ghost predicate Titled(chat: Option<Row>, title: string) {
    if chat.Some? && exists text :: Reads(chat.value.fields, "title", text) && !AllBlank(text)
    then exists text :: Reads(chat.value.fields, "title", text) && Stripped(text, title)
    else title == "New session"
  }

  lemma {:induction false} BlankIsSpace(c: char)
    ensures IsSpace(c) <==> Blank(c)
  {
  }

  lemma {:induction false} StripFirst(text: string, title: string)
    requires text != "" && Blank(text[0])
    ensures AllBlank(text) <==> AllBlank(text[1..])
    ensures Stripped(text[1..], title) ==> Stripped(text, title)
  {
    assert text == [text[0]] + text[1..];
    if Stripped(text[1..], title) {
      var lead, trail :| text[1..] == lead + title + trail && AllBlank(lead) && AllBlank(trail);
      assert text == ([text[0]] + lead) + title + trail && AllBlank([text[0]] + lead);
    }
  }

  lemma {:induction false} StripLast(text: string, title: string)
    requires text != "" && Blank(text[|text| - 1])
    ensures AllBlank(text) <==> AllBlank(text[..|text| - 1])
    ensures Stripped(text[..|text| - 1], title) ==> Stripped(text, title)
  {
    var front, last := text[..|text| - 1], text[|text| - 1];
    assert text == front + [last];
    if Stripped(front, title) {
      var lead, trail :| front == lead + title + trail && AllBlank(lead) && AllBlank(trail);
      assert text == lead + title + (trail + [last]) && AllBlank(trail + [last]);
    }
  }

  lemma {:induction false} TrimStrips(text: string)
    ensures if AllBlank(text) then Trim(text) == "" else Stripped(text, Trim(text))
    decreases |text|
  {
    if text != "" {
      var n := |text|;
      BlankIsSpace(text[0]);
      BlankIsSpace(text[n - 1]);
      hide IsSpace, Blank;
      if IsSpace(text[0]) {
        StripFirst(text, Trim(text[1..]));
        hide Stripped, AllBlank;
        TrimStrips(text[1..]);
      } else if IsSpace(text[n - 1]) {
        StripLast(text, Trim(text[..n - 1]));
        hide Stripped, AllBlank;
        TrimStrips(text[..n - 1]);
      } else {
        assert text == "" + text + "" && AllBlank("");
      }
    }
  }

  lemma {:induction false} TitleIff(chat: Option<Row>)
    ensures ChatForNotification(chat) == None <==> chat.Some? && Silent(chat.value)
    ensures ChatForNotification(chat).Some? ==> Titled(chat, ChatForNotification(chat).value)
  {
    assert forall f: map<string, Value>, k, t :: StrOf(Lookup(f, k)) == Some(t) <==> Reads(f, k, t);
    hide Trim, IsSpace, AllBlank;
    if chat.Some? {
      var title, parent := StrOf(Lookup(chat.value.fields, "title")), StrOf(Lookup(chat.value.fields, "parentChatId"));
      if parent.Some? {
        assert Reads(chat.value.fields, "parentChatId", parent.value);
      }
      if title.Some? {
        TrimStrips(title.value);
        assert Reads(chat.value.fields, "title", title.value);
      }
    }
  }
}
