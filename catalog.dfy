/** The video record as the backend's `videos` table stores it and as the browser receives
    it from `GET /api/videos`. */
module Catalog {
  import opened Wrappers

  datatype Video = Video(
    id: string,
    title: string,
    description: string,
    instructorName: string,
    durationMinutes: int,
    difficultyLevel: string,
    category: string,
    thumbnailUrl: Option<string>)
}
