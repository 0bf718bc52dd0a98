/** The two enumerations the driver uses: DNS record types and the
    propagation status of a change. `Enum.name()` and `Enum.valueOf` are
    modelled explicitly; an unknown name makes `valueOf` throw, here
    `None`. */
module RecordTypes {
  import opened Results

  /** Declaration order is the enum's ordinal order, which `compareTo`
      uses. */
  datatype RecordType = A | AAAA | CNAME | MX | TXT | NS | SOA | SRV | PTR | SPF

  function Ordinal(t: RecordType): nat
  {
    match t
    case A => 0
    case AAAA => 1
    case CNAME => 2
    case MX => 3
    case TXT => 4
    case NS => 5
    case SOA => 6
    case SRV => 7
    case PTR => 8
    case SPF => 9
  }

  function TypeName(t: RecordType): string
  {
    match t
    case A => "A"
    case AAAA => "AAAA"
    case CNAME => "CNAME"
    case MX => "MX"
    case TXT => "TXT"
    case NS => "NS"
    case SOA => "SOA"
    case SRV => "SRV"
    case PTR => "PTR"
    case SPF => "SPF"
  }

  /** `RecordType.valueOf(s)`: exact, case-sensitive match of a name. */
  function TypeFromName(s: string): (r: Option<RecordType>)
    ensures r.Some? ==> TypeName(r.value) == s
    ensures r.None? ==> forall t :: TypeName(t) != s
  {
    if s == "A" then Some(A)
    else if s == "AAAA" then Some(AAAA)
    else if s == "CNAME" then Some(CNAME)
    else if s == "MX" then Some(MX)
    else if s == "TXT" then Some(TXT)
    else if s == "NS" then Some(NS)
    else if s == "SOA" then Some(SOA)
    else if s == "SRV" then Some(SRV)
    else if s == "PTR" then Some(PTR)
    else if s == "SPF" then Some(SPF)
    else None
  }

  lemma TypeFromNameOfName(t: RecordType)
    ensures TypeFromName(TypeName(t)) == Some(t)
  {
  }

  /** The states of a submitted change; INSYNC is terminal. */
  datatype Status = PENDING | INSYNC

  function StatusName(s: Status): string
  {
    match s
    case PENDING => "PENDING"
    case INSYNC => "INSYNC"
  }

  /** `ZoneChangeStatus.Status.valueOf(s)`. */
  function StatusFromName(s: string): (r: Option<Status>)
    ensures r.Some? ==> StatusName(r.value) == s
    ensures r.None? ==> forall st :: StatusName(st) != s
  {
    if s == "PENDING" then Some(PENDING)
    else if s == "INSYNC" then Some(INSYNC)
    else None
  }
}
