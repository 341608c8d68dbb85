/** The connection URL of a network backup destination
    (backend/src/backup/host-backup-destination.ts). */
module DestinationUrl {
  import opened JsText
  import opened Options
  import opened PercentEncoding
  import opened Segments

  datatype Kind = Smb | Sftp | Webdav

  /** Absent texts are "", an absent port is 0, an absent flag is false: the original treats
      them alike. */
  datatype Destination = Destination(kind: Kind, host: string, port: nat, share: string, path: string,
                                     domain: string, username: string, password: string, secure: bool)

  datatype Parsed = Parsed(kind: Kind, host: string, port: Option<nat>, share: string, path: string,
                           domain: string, username: string, password: string, secure: bool)

  function DropSlashes(s: string): string {
    if s != "" && s[0] == '/' then DropSlashes(s[1..]) else s
  }

  function DropEndSlashes(s: string): string {
    if s != "" && s[|s| - 1] == '/' then DropEndSlashes(s[..|s| - 1]) else s
  }

  function TrimSlashes(s: string): string {
    DropEndSlashes(DropSlashes(Trim(s)))
  }

  function Scheme(d: Destination): string {
    match d.kind
    case Smb => "smb"
    case Sftp => "sftp"
    case Webdav => if d.secure then "webdavs" else "webdav"
  }

  function Share(d: Destination): string {
    if d.kind == Smb then TrimSlashes(d.share) else ""
  }

  function Domain(d: Destination): string {
    if d.kind == Smb then Trim(d.domain) else ""
  }

  function User(d: Destination): string {
    (if Domain(d) == "" then "" else Domain(d) + ";") + d.username
  }

  function PortText(port: nat): string {
    if port == 0 then "" else ":" + Decimal(port)
  }

  function EncodeAll(segs: seq<string>): (out: seq<string>)
    ensures |out| == |segs| && forall i | 0 <= i < |out| :: out[i] == Encode(segs[i])
  {
    seq(|segs|, i requires 0 <= i < |segs| => Encode(segs[i]))
  }

  function EncodePath(s: string): string {
    Join(EncodeAll(Split(s, '/')), '/')
  }

  function EncodePaths(paths: seq<string>): (out: seq<string>)
    ensures |out| == |paths| && forall i | 0 <= i < |out| :: out[i] == EncodePath(paths[i])
  {
    seq(|paths|, i requires 0 <= i < |paths| => EncodePath(paths[i]))
  }

  /** The share and the path, those that are not empty, encoded and joined. */
  function PathText(share: string, path: string): string {
    Join(EncodePaths(NonEmpty([share, path])), '/')
  }

  function Assembled(scheme: string, user: string, password: string, host: string, port: string, path: string): string {
    scheme + "://" + user + ":" + password + "@" + host + port + "/" + path
  }

  function BuildDestinationUrl(d: Destination): string {
    Assembled(Scheme(d), Encode(User(d)), Encode(d.password), Trim(d.host), PortText(d.port),
              PathText(Share(d), TrimSlashes(d.path)))
  }

  // What the platform's URL parser makes of a URL whose scheme is not one of its special ones.
  // Bracketed IPv6 hosts and the removal of control characters are not modelled.

  datatype Url = Url(scheme: string, username: string, password: string, host: string, port: Option<nat>, pathname: string)

  datatype Authority = Authority(username: string, password: string, host: string, port: Option<nat>)

  const USERINFO_SET := "\"#<>?`{}/:;=@[\\]^|"
  const PATH_SET := "\"#<>?`{}^"
  const FORBIDDEN_IN_HOST := " #/:<>?@[\\]^|"

  /** Position of the first character in `stops`, or |s|. */
  function Until(s: string, stops: string): (i: nat)
    ensures i <= |s| && (i < |s| ==> s[i] in stops)
  {
    if s == "" || s[0] in stops then 0 else 1 + Until(s[1..], stops)
  }

  function LastAt(s: string): Option<nat>
    ensures LastAt(s).Some? ==> LastAt(s).value < |s| && s[LastAt(s).value] == '@'
  {
    if s == "" then None
    else if s[|s| - 1] == '@' then Some(|s| - 1)
    else LastAt(s[..|s| - 1])
  }

  function Escaped(s: string, set_: string): string {
    if s == "" then ""
    else
      var c := s[0];
      (if c <= ' ' || c > '~' || c in set_ then PercentBytes(Utf8(c)) else [c]) + Escaped(s[1..], set_)
  }

  function NatOf(digits: string): nat
    requires forall c <- digits :: IsDigit(c)
  {
    if digits == "" then 0
    else
      assert IsDigit(digits[|digits| - 1]);
      10 * NatOf(digits[..|digits| - 1]) + (digits[|digits| - 1] as int - '0' as int)
  }

  /** Some(None) for no port, None for a bad one. */
  function ParsePort(text: string): Option<Option<nat>> {
    if text == "" then Some(None)
    else if forall c <- text :: IsDigit(c) then
      if NatOf(text) <= 65535 then Some(Some(NatOf(text))) else None
    else None
  }

  predicate HasForbidden(host: string) {
    exists c | c in host :: c in FORBIDDEN_IN_HOST
  }

  /** A host may be missing only where there is neither a user nor a port. */
  function ParseHostPort(text: string, credentials: bool): Option<(string, Option<nat>)> {
    var h := Until(text, ":");
    var port := ParsePort(if h < |text| then text[h + 1..] else "");
    if (h == 0 && (credentials || text != "")) || port.None? || HasForbidden(text[..h]) then None
    else Some((Escaped(text[..h], ""), port.value))
  }

  function ParseAuthority(text: string): Option<Authority> {
    var at := LastAt(text);
    var info := if at.None? then "" else text[..at.value];
    var hostPort := ParseHostPort(if at.None? then text else text[at.value + 1..], at.Some?);
    AuthorityFrom(info, hostPort)
  }

  function AuthorityFrom(info: string, hostPort: Option<(string, Option<nat>)>): Option<Authority> {
    if hostPort.None? then None
    else
      var u := Until(info, ":");
      Some(Authority(Escaped(info[..u], USERINFO_SET), Escaped(if u < |info| then info[u + 1..] else "", USERINFO_SET),
                     hostPort.value.0, hostPort.value.1))
  }

  predicate SpellsADot(s: string) {
    s == "." || s == "%2e" || s == "%2E"
  }

  /** How many dots a segment spells, each plain or as %2e: 1 and 2 are the dot segments. */
  function EncodedDots(s: string): nat {
    if SpellsADot(s) then 1
    else if |s| >= 1 && SpellsADot(s[..1]) && SpellsADot(s[1..]) then 2
    else if |s| >= 3 && SpellsADot(s[..3]) && SpellsADot(s[3..]) then 2
    else 0
  }

  function EscapedAll(segs: seq<string>): (out: seq<string>)
    ensures |out| == |segs| && forall i | 0 <= i < |out| :: out[i] == Escaped(segs[i], PATH_SET)
  {
    seq(|segs|, i requires 0 <= i < |segs| => Escaped(segs[i], PATH_SET))
  }

  function Pathname(segs: seq<string>): string {
    if segs == [] then "" else "/" + segs[0] + Pathname(segs[1..])
  }

  /** `text` starts at the slash after the authority, or at a query or fragment. */
  function ParsePath(text: string): string {
    var path := text[..Until(text, "?#")];
    if path == "" then "" else Pathname(Walk(EscapedAll(Split(path[1..], '/')), [], EncodedDots))
  }

  function UrlFrom(scheme: string, authority: Option<Authority>, pathname: string): Option<Url> {
    if authority.None? then None
    else
      var au := authority.value;
      Some(Url(scheme, au.username, au.password, au.host, au.port, pathname))
  }

  function ParseAfterScheme(scheme: string, rest: string): Option<Url> {
    var a := Until(rest, "/?#");
    UrlFrom(scheme, ParseAuthority(rest[..a]), ParsePath(rest[a..]))
  }

  /** None where the constructor throws. */
  function ParseUrl(url: string): Option<Url> {
    var i := Until(url, ":");
    if i + 3 > |url| || url[i..i + 3] != "://" then None else ParseAfterScheme(url[..i], url[i + 3..])
  }

  function KindOf(scheme: string): Option<Kind> {
    if scheme == "smb" then Some(Smb)
    else if scheme == "sftp" then Some(Sftp)
    else if scheme == "webdav" || scheme == "webdavs" then Some(Webdav)
    else None
  }

  /** The two first pieces of a user that names a domain. */
  function DomainAndUser(user: string): (string, string) {
    var parts := Split(user, ';');
    if |parts| == 1 then ("", user) else (parts[0], parts[1])
  }

  /** The share of an SMB path and the folder under it. */
  function ShareAndPath(kind: Kind, segs: seq<string>): (string, string) {
    if kind != Smb then ("", Join(segs, '/'))
    else if segs == [] then ("", "")
    else (segs[0], Join(segs[1..], '/'))
  }

  /** The destination a parsed URL describes; None where the original throws. */
  function Interpreted(u: Url): Option<Parsed> {
    var kind, user := KindOf(u.scheme), Decode(u.username);
    var pathname, password := Decode(u.pathname), Decode(u.password);
    if kind.None? || user.None? || pathname.None? || password.None? then None
    else
      var du := DomainAndUser(user.value);
      var sp := ShareAndPath(kind.value, NonEmpty(Split(pathname.value, '/')));
      Some(Parsed(kind.value, u.host, u.port, sp.0, sp.1, du.0, du.1, password.value, u.scheme == "webdavs"))
  }

  function ParseDestinationUrl(url: string): Option<Parsed> {
    var u := ParseUrl(url);
    if u.None? then None else Interpreted(u.value)
  }

  method ReadDestinationUrl(url: string) returns (destination: Option<Parsed>)
    ensures destination == ParseDestinationUrl(url)
  {
    var parsed := ParseUrl(url);
    if parsed.None? {
      return None;
    }
    var u := parsed.value;
    var kind := KindOf(u.scheme);
    if kind.None? {
      return None;
    }
    var user, pathname, password := Decode(u.username), Decode(u.pathname), Decode(u.password);
    if user.None? || pathname.None? || password.None? {
      return None;
    }
    var domain, username := "", user.value;
    SplitOne(username, ';');
    if ';' in username {
      var pieces := Split(username, ';');
      domain, username := pieces[0], pieces[1];
    }
    var segs := NonEmpty(Split(pathname.value, '/'));
    var share := "";
    if kind.value == Smb && segs != [] {
      share, segs := segs[0], segs[1..];
    }
    destination := Some(Parsed(kind.value, u.host, u.port, share, Join(segs, '/'), domain, username,
                               password.value, u.scheme == "webdavs"));
  }
}
