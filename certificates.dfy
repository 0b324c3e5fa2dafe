/** `Certificates`: a grid of certificate cards with a category filter whose
    buttons show counts, cards that show at most three skill tags, and a
    modal that opens on a card click and closes on the backdrop or the close
    button. */
module Certificates {
  import opened Seqs

  datatype Category = Aws | Linux | Security | DevOps | Networking
  datatype Level = Beginner | Intermediate | Advanced

  datatype Certificate = Certificate(
    id: string,
    name: string,
    issuer: string,
    category: Category,
    level: Level,
    skills: seq<string>)

  /** The string a category has in `cert.category` and in the button ids. */
  function CategoryId(c: Category): string
  {
    match c
    case Aws => "aws"
    case Linux => "linux"
    case Security => "security"
    case DevOps => "devops"
    case Networking => "networking"
  }

  /** The id of the button that shows every certificate. */
  const AllId: string := "all"

  /** The hard-coded `certificates` list. */
  const CertificateTable: seq<Certificate> := [
    Certificate("aws-saa", "AWS Solutions Architect Associate", "Amazon Web Services",
      Aws, Intermediate, ["EC2", "S3", "VPC", "RDS", "Lambda", "CloudFormation"]),
    Certificate("linux-lpic1", "LPIC-1: Linux Administrator", "Linux Professional Institute",
      Linux, Intermediate, ["Bash", "File Systems", "Networking", "Security", "Package Management"]),
    Certificate("comptia-security", "CompTIA Security+", "CompTIA",
      Security, Intermediate, ["Network Security", "Cryptography", "Risk Management", "Incident Response"]),
    Certificate("docker-certified", "Docker Certified Associate", "Docker Inc.",
      DevOps, Intermediate, ["Docker", "Containers", "Docker Compose", "Registry", "Security"]),
    Certificate("ccna", "Cisco CCNA", "Cisco Systems",
      Networking, Intermediate, ["Routing", "Switching", "Network Security", "WAN Technologies"]),
    Certificate("kubernetes-cka", "Certified Kubernetes Administrator", "Cloud Native Computing Foundation",
      DevOps, Advanced, ["Kubernetes", "Container Orchestration", "Cluster Management", "Security"])
  ]

  function Ids(certs: seq<Certificate>): seq<string>
  {
    seq(|certs|, i requires 0 <= i < |certs| => certs[i].id)
  }

  /** The certificate ids are usable as list keys: no two are equal. */
  lemma CertificateIdsDistinct()
    ensures Distinct(Ids(CertificateTable))
  {
  }

  /** `cert => cert.category === id` */
  function InCategory(id: string): Certificate -> bool
  {
    (c: Certificate) => CategoryId(c.category) == id
  }

  /** `filteredCertificates` for the selected category. */
  function Shown(certs: seq<Certificate>, selectedCategory: string): (r: seq<Certificate>)
    ensures |r| <= |certs|
    ensures forall c :: c in r ==> c in certs
  {
    if selectedCategory == AllId then certs else Filter(certs, InCategory(selectedCategory))
  }

  /** Choosing a category shows exactly its certificates, each as often as
      it occurs, in order; 'all' shows the whole list. */
  lemma ShownSpec(certs: seq<Certificate>, k: Category)
    ensures Shown(certs, AllId) == certs
    ensures forall c :: c in Shown(certs, CategoryId(k)) <==> c in certs && c.category == k
    ensures forall c ::
      multiset(Shown(certs, CategoryId(k)))[c] == if c.category == k then multiset(certs)[c] else 0
    ensures IsSubsequence(Shown(certs, CategoryId(k)), certs)
  {
    forall c
      ensures c in Shown(certs, CategoryId(k)) <==> c in certs && c.category == k
      ensures multiset(Shown(certs, CategoryId(k)))[c] == if c.category == k then multiset(certs)[c] else 0
    {
      FilterMembership(certs, InCategory(CategoryId(k)), c);
      FilterMultiset(certs, InCategory(CategoryId(k)), c);
    }
    FilterIsSubsequence(certs, InCategory(CategoryId(k)));
  }

  datatype CategoryButton = CategoryButton(id: string, name: string, count: nat)

  /** The `categories` list of filter buttons with their counts. */
  function CategoryButtons(certs: seq<Certificate>): (b: seq<CategoryButton>)
    ensures |b| == 6 && b[0].id == AllId && b[0].count == |certs|
    ensures forall i :: 0 <= i < |b| ==> b[i].count <= |certs|
  {
    [ CategoryButton(AllId, "Всі сертифікати", |certs|),
      CategoryButton("aws", "AWS", |Filter(certs, InCategory("aws"))|),
      CategoryButton("linux", "Linux", |Filter(certs, InCategory("linux"))|),
      CategoryButton("security", "Безпека", |Filter(certs, InCategory("security"))|),
      CategoryButton("devops", "DevOps", |Filter(certs, InCategory("devops"))|),
      CategoryButton("networking", "Мережі", |Filter(certs, InCategory("networking"))|) ]
  }

  /** Every button's count is the number of cards its click shows, and
      there is one button per category after the 'all' button. */
  lemma ButtonCountsMatchShown(certs: seq<Certificate>)
    ensures |CategoryButtons(certs)| == 6 && CategoryButtons(certs)[0].id == AllId
    ensures forall i :: 0 <= i < |CategoryButtons(certs)| ==>
      CategoryButtons(certs)[i].count == |Shown(certs, CategoryButtons(certs)[i].id)|
    ensures forall k: Category :: exists i :: 1 <= i < 6 && CategoryButtons(certs)[i].id == CategoryId(k)
  {
    forall k: Category
      ensures exists i :: 1 <= i < 6 && CategoryButtons(certs)[i].id == CategoryId(k)
    {
      match k
      case Aws => assert CategoryButtons(certs)[1].id == CategoryId(k);
      case Linux => assert CategoryButtons(certs)[2].id == CategoryId(k);
      case Security => assert CategoryButtons(certs)[3].id == CategoryId(k);
      case DevOps => assert CategoryButtons(certs)[4].id == CategoryId(k);
      case Networking => assert CategoryButtons(certs)[5].id == CategoryId(k);
    }
  }

  /** Every certificate belongs to exactly one of the five categories, so the
      five category counts add up to the 'all' count. */
  lemma {:induction false} CategoryCountsSum(certs: seq<Certificate>)
    ensures var b := CategoryButtons(certs);
      b[1].count + b[2].count + b[3].count + b[4].count + b[5].count == b[0].count
  {
    if certs != [] {
      CategoryCountsSum(certs[1..]);
    }
  }

  /** The skill tags a card shows: `skills.slice(0, 3)`. */
  function CardSkills(skills: seq<string>): (r: seq<string>)
    ensures |r| <= 3 && |r| <= |skills| && r == skills[..|r|]
  {
    if |skills| <= 3 then skills else skills[..3]
  }

  /** The "+n" badge after the tags, present when `skills.length > 3`. */
  function MoreBadge(skills: seq<string>): (m: Option<nat>)
    ensures m.Some? ==> m.value > 0 && m.value + 3 == |skills|
  {
    if |skills| > 3 then Some(|skills| - 3) else None
  }

  /** A card shows the first skills, at most three, and the badge counts the
      rest, so nothing is lost between the two. */
  lemma SkillTagsSpec(skills: seq<string>)
    ensures |CardSkills(skills)| == if |skills| <= 3 then |skills| else 3
    ensures CardSkills(skills) == skills[..|CardSkills(skills)|]
    ensures MoreBadge(skills).Some? <==> |skills| > 3
    ensures MoreBadge(skills).Some? ==> MoreBadge(skills).value == |skills| - 3
    ensures MoreBadge(skills).Some? <==> |CardSkills(skills)| < |skills|
    ensures |CardSkills(skills)| + (if MoreBadge(skills).Some? then MoreBadge(skills).value else 0) == |skills|
  {
  }

  /** Elements of the card grid and the modal that have a click handler. */
  datatype Element = Card(cert: Certificate) | Backdrop | ModalBody | CloseButton

  /** The effect of one element's `onClick`. */
  datatype Handler = SetSelected(selected: Option<Certificate>) | StopPropagation

  function HandlerOf(e: Element): (h: Handler)
    ensures h.StopPropagation? <==> e == ModalBody
    ensures h.SetSelected? ==> (h.selected.Some? <==> e.Card?)
  {
    match e
    case Card(c) => SetSelected(Some(c))
    case Backdrop => SetSelected(None)
    case ModalBody => StopPropagation
    case CloseButton => SetSelected(None)
  }

  /** The clicked element and then its ancestors with a click handler. The
      close button sits in the modal body, which sits in the backdrop. */
  function BubblePath(target: Element): (path: seq<Element>)
    ensures |path| >= 1 && path[0] == target
    ensures forall i :: 1 <= i < |path| ==> !path[i].Card?
    ensures !target.Card? ==> path[|path| - 1] == Backdrop
  {
    match target
    case Card(c) => [Card(c)]
    case Backdrop => [Backdrop]
    case ModalBody => [ModalBody, Backdrop]
    case CloseButton => [CloseButton, ModalBody, Backdrop]
  }

  /** Runs the handlers of a bubbling click in order until one stops it. */
  function Dispatch(path: seq<Element>, selected: Option<Certificate>): (r: Option<Certificate>)
    ensures r == selected || exists i :: 0 <= i < |path| && HandlerOf(path[i]) == SetSelected(r)
  {
    if path == [] then selected
    else match HandlerOf(path[0])
      case StopPropagation => selected
      case SetSelected(s) => Dispatch(path[1..], s)
  }

  /** A card click opens its certificate; the backdrop and the close button
      close the modal; a click in the modal body leaves it as it is. */
  lemma ClickSpec(selected: Option<Certificate>, c: Certificate)
    ensures Dispatch(BubblePath(Card(c)), selected) == Some(c)
    ensures Dispatch(BubblePath(Backdrop), selected) == None
    ensures Dispatch(BubblePath(CloseButton), selected) == None
    ensures Dispatch(BubblePath(ModalBody), selected) == selected
  {
  }

  /** The component's state. */
  class CertificatesView {
    var selectedCategory: string
    var selectedCertificate: Option<Certificate>

    constructor ()
      ensures selectedCategory == AllId && selectedCertificate == None
    {
      selectedCategory := AllId;
      selectedCertificate := None;
    }

    /** A category button's `onClick`. */
    method SelectCategory(id: string)
      modifies this
      ensures selectedCategory == id && selectedCertificate == old(selectedCertificate)
    {
      selectedCategory := id;
    }

    /** A click on `target`. The modal's elements exist only while a
        certificate is selected, and then its full-screen backdrop covers the
        cards, so a card can be clicked only while none is selected. */
    method Click(target: Element)
      requires target.Card? <==> selectedCertificate.None?
      modifies this
      ensures selectedCertificate == Dispatch(BubblePath(target), old(selectedCertificate))
      ensures selectedCategory == old(selectedCategory)
    {
      selectedCertificate := Dispatch(BubblePath(target), selectedCertificate);
    }

    /** The cards currently in the grid. */
    function Grid(): (r: seq<Certificate>)
      reads this
      ensures |r| <= |CertificateTable|
      ensures forall c :: c in r ==> c in CertificateTable
    {
      Shown(CertificateTable, selectedCategory)
    }
  }
}
