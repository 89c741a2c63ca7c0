/**
 * The difficulty and board-orientation labels the ingestion scripts and the site
 * share.
 */
module Labels {
  import opened Wrappers

  /** The site's difficulty labels. */
  datatype Level = Easy | Medium | Hard

  function LevelName(l: Level): string {
    match l
    case Easy => "Easy"
    case Medium => "Medium"
    case Hard => "Hard"
  }

  /** The rating buckets of both Lichess scripts: below 1300 Easy, below 1600
      Medium, otherwise Hard. A rating that is NaN fails both comparisons and is
      Hard. */
  function RatingLevel(rating: Option<int>): (l: Level)
    ensures l == Easy <==> rating.Some? && rating.value < 1300
    ensures l == Medium <==> rating.Some? && 1300 <= rating.value < 1600
    ensures l == Hard <==> rating.None? || 1600 <= rating.value
  {
    match rating
    case None => Hard
    case Some(r) => if r < 1300 then Easy else if r < 1600 then Medium else Hard
  }

  /** The side the board is shown from. */
  datatype Side = White | Black

  function SideName(s: Side): string {
    match s
    case White => "white"
    case Black => "black"
  }
}
