/** The eight zones of the memory. */
module Zones {
  datatype Zone = Working | Episodic | Semantic | Procedural | Entity | RetrievalIndex | Provenance | Consolidation
}
