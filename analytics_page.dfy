/** The Analytics page's two computations: the three-tier colouring of an
    efficiency percentage, and the avatar initials of a team member. */
module Analytics {
  import opened Text

  /** The colour tiers, from worst to best. */
  datatype Tier = Red | Yellow | Green

  /** The threshold chain shared by `getEfficiencyColor` and
      `getEfficiencyBadge`: 90 and above is green, 80 up to 90 yellow, below
      80 red. */
  function EfficiencyTier(efficiency: real): (t: Tier)
    ensures t == Green <==> efficiency >= 90.0
    ensures t == Yellow <==> 80.0 <= efficiency < 90.0
    ensures t == Red <==> efficiency < 80.0
  {
    if efficiency >= 90.0 then Green
    else if efficiency >= 80.0 then Yellow
    else Red
  }

  function TierRank(t: Tier): nat {
    match t
    case Red => 0
    case Yellow => 1
    case Green => 2
  }

  /** A higher efficiency never gets a lower tier. */
  lemma TierMonotone(a: real, b: real)
    requires a <= b
    ensures TierRank(EfficiencyTier(a)) <= TierRank(EfficiencyTier(b))
  {
  }

  function TextColor(t: Tier): string {
    match t
    case Green => "text-green-600"
    case Yellow => "text-yellow-600"
    case Red => "text-red-600"
  }

  function BadgeClasses(t: Tier): string {
    match t
    case Green => "bg-green-100 text-green-800 border-green-200"
    case Yellow => "bg-yellow-100 text-yellow-800 border-yellow-200"
    case Red => "bg-red-100 text-red-800 border-red-200"
  }

  /** `getEfficiencyColor`: the text colour of the efficiency's tier. */
  function EfficiencyColor(efficiency: real): (c: string)
    ensures c == TextColor(EfficiencyTier(efficiency))
  {
    if efficiency >= 90.0 then "text-green-600"
    else if efficiency >= 80.0 then "text-yellow-600"
    else "text-red-600"
  }

  /** `getEfficiencyBadge`: the badge classes of the efficiency's tier. */
  function EfficiencyBadge(efficiency: real): (c: string)
    ensures c == BadgeClasses(EfficiencyTier(efficiency))
  {
    if efficiency >= 90.0 then "bg-green-100 text-green-800 border-green-200"
    else if efficiency >= 80.0 then "bg-yellow-100 text-yellow-800 border-yellow-200"
    else "bg-red-100 text-red-800 border-red-200"
  }

  /** Each tier has its own colour and its own badge. */
  lemma TierStylesDistinct(a: Tier, b: Tier)
    ensures TextColor(a) == TextColor(b) <==> a == b
    ensures BadgeClasses(a) == BadgeClasses(b) <==> a == b
  {
    if a != b {
      assert |TextColor(a)| != |TextColor(b)|;
      assert |BadgeClasses(a)| != |BadgeClasses(b)|;
    }
  }

  /** The colour and the badge agree: two efficiencies get the same colour
      exactly when they get the same badge, namely when they fall in the same
      tier. */
  lemma ColorAndBadgeAgree(a: real, b: real)
    ensures EfficiencyColor(a) == EfficiencyColor(b) <==> EfficiencyTier(a) == EfficiencyTier(b)
    ensures EfficiencyBadge(a) == EfficiencyBadge(b) <==> EfficiencyTier(a) == EfficiencyTier(b)
  {
    TierStylesDistinct(EfficiencyTier(a), EfficiencyTier(b));
  }

  /** The avatar text of a team member: the first letter of each
      space-separated word of the name, joined. An empty word (two spaces in a
      row) contributes nothing. */
  function MemberInitials(name: string): (r: string)
    ensures r == WordStarts(name)
    ensures |r| <= |Split(name)|
  {
    FirstLettersOfSplit(name);
    FirstLetters(Split(name))
  }
}
